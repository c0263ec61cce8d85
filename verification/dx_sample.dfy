/**
 * The shared base of the samples (DXSample.cpp): command-line parsing, the
 * choice of a hardware adapter, and the two string helpers.
 *
 * What DXGI and Direct3D 12 report (the enumerated adapters, whether a device
 * can be created on each, whether the WARP adapter exists) is given to the
 * operations as a `Platform` value.
 */
module DxSample {
  import opened Wrappers

  /** Number of swap-chain back buffers (DXSample.h, `FrameCount`). */
  const FrameCount: nat := 2

  /** Outcome of a sequence of `ThrowIfFailed` calls: all succeeded, or one threw. */
  datatype Status = Ok | Thrown

  // ---------------------------------------------------------------------------
  // Case-insensitive comparison of wide C strings (`_wcsnicmp`)
  // ---------------------------------------------------------------------------

  /** The wide-character string terminator. */
  const Nul: char := 0 as char

  /** A C string holds no terminator before its end. */
  predicate IsCString(s: string) {
    forall i :: 0 <= i < |s| ==> s[i] != Nul
  }

  /** Folding to lower case as the "C" locale does it: only 'A'..'Z' change. */
  function ToLower(c: char): (r: char)
    ensures r == Nul <==> c == Nul
    ensures 'a' <= r <= 'z' <==> ('a' <= c <= 'z' || 'A' <= c <= 'Z')
  {
    if 'A' <= c <= 'Z' then (c as int + 32) as char else c
  }

  /** The character a C string holds at index k; past its end, the terminator. */
  function CharAt(s: string, k: nat): char {
    if k < |s| then s[k] else Nul
  }

  /** The C string after its first character. */
  function Rest(s: string): string {
    if s == [] then [] else s[1..]
  }

  /**
   * `_wcsnicmp(a, b, n)`: compares at most n characters, each folded to lower
   * case, and stops at the first difference or at a terminator both strings
   * share; the result is the difference of the folded characters there.
   */
  function CompareNoCase(a: string, b: string, n: nat): int
    decreases n
  {
    if n == 0 then 0
    else
      var f, l := ToLower(CharAt(a, 0)), ToLower(CharAt(b, 0));
      if f != l then f as int - l as int
      else if f == Nul then 0
      else CompareNoCase(Rest(a), Rest(b), n - 1)
  }

  /** a is a prefix of b once both are folded to lower case. */
  predicate IsPrefixNoCase(a: string, b: string) {
    |a| <= |b| && forall i :: 0 <= i < |a| ==> ToLower(a[i]) == ToLower(b[i])
  }

  /**
   * Comparing a C string against another over its own length finds them equal
   * exactly when the first is a case-insensitive prefix of the second: the
   * comparison never looks past the end of its first argument.
   */
  lemma {:induction false} CompareOwnLength(a: string, b: string)
    requires IsCString(a) && IsCString(b)
    ensures CompareNoCase(a, b, |a|) == 0 <==> IsPrefixNoCase(a, b)
    decreases |a|
  {
    if a != [] {
      var f, l := ToLower(CharAt(a, 0)), ToLower(CharAt(b, 0));
      assert f == ToLower(a[0]) && f != Nul;
      if b == [] {
        assert l == Nul;
      } else if f == l {
        assert Rest(a) == a[1..] && Rest(b) == b[1..];
        CompareOwnLength(a[1..], b[1..]);
        if IsPrefixNoCase(a[1..], b[1..]) {
          forall i | 0 <= i < |a| ensures ToLower(a[i]) == ToLower(b[i]) {
            if i > 0 { assert a[i] == a[1..][i - 1] && b[i] == b[1..][i - 1]; }
          }
        }
        if IsPrefixNoCase(a, b) {
          forall i | 0 <= i < |a[1..]| ensures ToLower(a[1..][i]) == ToLower(b[1..][i]) {
            assert a[1..][i] == a[i + 1] && b[1..][i] == b[i + 1];
          }
        }
      }
    }
  }

  // ---------------------------------------------------------------------------
  // Command-line parsing (`ParseCommandLineArgs`)
  // ---------------------------------------------------------------------------

  /** Text appended to the window title for each argument that asks for WARP. */
  const WarpSuffix: string := " (WARP)"

  /**
   * The test the parser applies to one argument: compared over the argument's
   * own length, it equals "-warp" or "/warp" ignoring case.
   */
  predicate IsWarpArg(arg: string) {
    CompareNoCase(arg, "-warp", |arg|) == 0 || CompareNoCase(arg, "/warp", |arg|) == 0
  }

  /** The arguments the parser examines: argv[1], ..., argv[argc - 1]. */
  function UserArgs(argv: seq<string>): seq<string> {
    if |argv| == 0 then [] else argv[1..]
  }

  /** How many of args ask for the WARP device. */
  function WarpCount(args: seq<string>): nat {
    if args == [] then 0
    else WarpCount(args[..|args| - 1]) + (if IsWarpArg(args[|args| - 1]) then 1 else 0)
  }

  /** n copies of s, one after the other. */
  function Repeat(s: string, n: nat): string {
    if n == 0 then [] else Repeat(s, n - 1) + s
  }

  /** Some argument asks for WARP exactly when the count of such arguments is positive. */
  lemma {:induction false} WarpCountPositive(args: seq<string>)
    ensures WarpCount(args) > 0 <==> exists i :: 0 <= i < |args| && IsWarpArg(args[i])
  {
    if args != [] {
      var init := args[..|args| - 1];
      WarpCountPositive(init);
      if exists i :: 0 <= i < |init| && IsWarpArg(init[i]) {
        var i :| 0 <= i < |init| && IsWarpArg(init[i]);
        assert args[i] == init[i];
      }
      if exists i :: 0 <= i < |args| && IsWarpArg(args[i]) {
        var i :| 0 <= i < |args| && IsWarpArg(args[i]);
        if i < |init| { assert init[i] == args[i]; }
      }
    }
  }

  /** Counting distributes over concatenation: each argument is judged on its own. */
  lemma {:induction false} WarpCountAppend(a: seq<string>, b: seq<string>)
    ensures WarpCount(a + b) == WarpCount(a) + WarpCount(b)
    decreases |b|
  {
    if b == [] {
      assert a + b == a;
    } else {
      var b' := b[..|b| - 1];
      assert (a + b)[..|a + b| - 1] == a + b';
      WarpCountAppend(a, b');
    }
  }

  /**
   * The argument test is exactly "a case-insensitive prefix of -warp or
   * /warp": the empty argument, "-" and "/W" ask for WARP, "-warpx" does not.
   */
  lemma WarpArgIsPrefix(arg: string)
    requires IsCString(arg)
    ensures IsWarpArg(arg) <==> IsPrefixNoCase(arg, "-warp") || IsPrefixNoCase(arg, "/warp")
  {
    CompareOwnLength(arg, "-warp");
    CompareOwnLength(arg, "/warp");
  }

  /** Worked cases of the argument test that pass it: prefixes of "-warp" or "/warp", in any case. */
  lemma WarpArgAccepted()
    ensures IsWarpArg("") && IsWarpArg("-") && IsWarpArg("/W") && IsWarpArg("-WARP")
  {
    WarpArgIsPrefix("");
    WarpArgIsPrefix("-");
    WarpArgIsPrefix("/W");
    WarpArgIsPrefix("-WARP");
  }

  /** An argument longer than "-warp" fails the test, even when it starts with it. */
  lemma WarpArgRejectsLonger()
    ensures !IsWarpArg("-warpx")
  {
    WarpArgIsPrefix("-warpx");
  }

  /** An argument without the leading '-' or '/' fails the test. */
  lemma WarpArgRejectsBareWord()
    ensures !IsWarpArg("warp")
  {
    WarpArgIsPrefix("warp");
    assert ToLower('w') != ToLower('-') && ToLower('w') != ToLower('/');
  }

  /**
   * Arguments that fail the test change nothing: however many of them are
   * added, the flag and the title come out as they would without them.
   */
  lemma NonMatchingArgsChangeNothing(args: seq<string>, extra: seq<string>)
    requires forall k :: 0 <= k < |extra| ==> !IsWarpArg(extra[k])
    ensures WarpCount(args + extra) == WarpCount(args)
  {
    WarpCountPositive(extra);
    WarpCountAppend(args, extra);
  }

  /** The program name is never examined: argv[0] may be anything, "-warp" included. */
  lemma ProgramNameIgnored(argv: seq<string>, name: string)
    requires |argv| >= 1
    ensures WarpCount(UserArgs(argv[0 := name])) == WarpCount(UserArgs(argv))
  {
    assert argv[0 := name][1..] == argv[1..];
  }

  // ---------------------------------------------------------------------------
  // Adapter selection
  // ---------------------------------------------------------------------------

  /** `DXGI_ADAPTER_FLAG_SOFTWARE`. */
  const AdapterFlagSoftware: bv32 := 2

  /**
   * What `GetDesc1` reports of one enumerated adapter (its flags) and whether
   * `D3D12CreateDevice` at feature level 11.0 succeeds on it.
   */
  datatype AdapterDesc = AdapterDesc(flags: bv32, acceptsD3D12: bool)

  /** What the platform reports: the adapters `EnumAdapters1` yields, in order, and the WARP adapter. */
  datatype Platform = Platform(
    factoryCreated: bool,
    adapters: seq<AdapterDesc>,
    warpEnumerated: bool,
    warpAcceptsD3D12: bool)

  /** The adapter a COM pointer holds: none, the hardware adapter at an enumeration index, or WARP. */
  datatype AdapterRef = NoAdapter | HardwareAdapter(index: nat) | WarpAdapter

  /** The device a COM pointer holds: none, or one created on an adapter. */
  datatype DeviceRef = NoDevice | DeviceOn(adapter: AdapterRef)

  /** The Basic Render Driver and other software adapters carry the software flag. */
  predicate IsSoftware(d: AdapterDesc) {
    d.flags & AdapterFlagSoftware != 0
  }

  /** An adapter the hardware selection rule accepts. */
  predicate Eligible(d: AdapterDesc) {
    !IsSoftware(d) && d.acceptsD3D12
  }

  /** Some adapter in s is not a software adapter. */
  predicate HasHardware(s: seq<AdapterDesc>) {
    exists j :: 0 <= j < |s| && !IsSoftware(s[j])
  }

  /** `EnumAdapters1(i, &adapter)`: the adapter at index i, or none once the list is exhausted. */
  function EnumAdapters(adapters: seq<AdapterDesc>, i: nat): (r: AdapterRef)
    ensures r == NoAdapter <==> i >= |adapters|
  {
    if i < |adapters| then HardwareAdapter(i) else NoAdapter
  }

  /** Reference definition of the rule: the index of the first eligible adapter, if there is one. */
  function FirstEligible(adapters: seq<AdapterDesc>): Option<nat> {
    if adapters == [] then None
    else if Eligible(adapters[0]) then Some(0)
    else match FirstEligible(adapters[1..])
      case None => None
      case Some(k) => Some(k + 1)
  }

  /**
   * The reference rule picks an eligible adapter with no eligible adapter
   * before it, and picks none exactly when no adapter is eligible.
   */
  lemma {:induction false} FirstEligibleIsFirst(adapters: seq<AdapterDesc>)
    ensures FirstEligible(adapters).Some? ==>
      FirstEligible(adapters).value < |adapters| &&
      Eligible(adapters[FirstEligible(adapters).value]) &&
      forall j :: 0 <= j < FirstEligible(adapters).value ==> !Eligible(adapters[j])
    ensures FirstEligible(adapters).None? <==> forall j :: 0 <= j < |adapters| ==> !Eligible(adapters[j])
  {
    if adapters != [] && !Eligible(adapters[0]) {
      var tail := adapters[1..];
      FirstEligibleIsFirst(tail);
      forall j | 0 <= j < |tail| ensures tail[j] == adapters[j + 1] { }
      if FirstEligible(adapters).None? {
        forall j | 0 <= j < |adapters| ensures !Eligible(adapters[j]) {
          if j > 0 { assert adapters[j] == tail[j - 1]; }
        }
      }
    }
  }

  /** The adapter reference the rule yields. */
  function ChosenAdapter(adapters: seq<AdapterDesc>): AdapterRef {
    match FirstEligible(adapters)
    case None => NoAdapter
    case Some(k) => HardwareAdapter(k)
  }

  /**
   * `GetHardwareAdapter`: walks the enumeration, skips software adapters,
   * probes each other adapter for Direct3D 12 without keeping a device, and
   * stops at the first that passes. When the enumeration runs out, the COM
   * pointer was released by the failing `EnumAdapters1` call, so the result is
   * null.
   */
  method GetHardwareAdapter(adapters: seq<AdapterDesc>) returns (chosen: AdapterRef)
    ensures chosen == ChosenAdapter(adapters)
    ensures chosen.HardwareAdapter? ==>
      chosen.index < |adapters| && !IsSoftware(adapters[chosen.index]) &&
      adapters[chosen.index].acceptsD3D12 &&
      forall j :: 0 <= j < chosen.index ==> !Eligible(adapters[j])
    ensures chosen == NoAdapter <==> forall j :: 0 <= j < |adapters| ==> !Eligible(adapters[j])
    ensures chosen != WarpAdapter
  {
    var adapterIndex := 0;
    var adapter := EnumAdapters(adapters, adapterIndex);
    while adapter != NoAdapter
      invariant adapterIndex <= |adapters|
      invariant adapter == EnumAdapters(adapters, adapterIndex)
      invariant forall j :: 0 <= j < adapterIndex ==> !Eligible(adapters[j])
      decreases |adapters| - adapterIndex
    {
      var desc := adapters[adapterIndex];
      if IsSoftware(desc) {
        // The Basic Render Driver is never selected here.
      } else if desc.acceptsD3D12 {
        break;
      }
      adapterIndex := adapterIndex + 1;
      adapter := EnumAdapters(adapters, adapterIndex);
    }
    chosen := adapter;
    FirstEligibleIsFirst(adapters);
    if chosen.HardwareAdapter? {
      FirstEligibleUnique(adapters, adapterIndex);
    }
  }

  /** An eligible index with no eligible index before it is the one the reference rule picks. */
  lemma FirstEligibleUnique(adapters: seq<AdapterDesc>, k: nat)
    requires k < |adapters| && Eligible(adapters[k])
    requires forall j :: 0 <= j < k ==> !Eligible(adapters[j])
    ensures FirstEligible(adapters) == Some(k)
  {
    FirstEligibleIsFirst(adapters);
    var f := FirstEligible(adapters);
    assert f.Some?;
    assert Eligible(adapters[f.value]) && Eligible(adapters[k]);
  }

  /**
   * The enumeration loop of `CreateFactoryDeviceAdapter` (and of the square
   * sample): each enumerated adapter lands in the adapter pointer, each
   * non-software adapter is given a `D3D12CreateDevice` call that writes the
   * device pointer, released first and set only on success, and the loop stops
   * at the first success. The device pointer keeps its old value only when no
   * non-software adapter was tried.
   */
  method CreateDeviceOnFirstHardwareAdapter(adapters: seq<AdapterDesc>, device0: DeviceRef)
    returns (adapter: AdapterRef, device: DeviceRef)
    ensures adapter == ChosenAdapter(adapters)
    ensures adapter.HardwareAdapter? ==> device == DeviceOn(adapter)
    ensures adapter == NoAdapter ==> device == (if HasHardware(adapters) then NoDevice else device0)
  {
    device := device0;
    var adapterIndex := 0;
    adapter := EnumAdapters(adapters, adapterIndex);
    while adapter != NoAdapter
      invariant adapterIndex <= |adapters|
      invariant adapter == EnumAdapters(adapters, adapterIndex)
      invariant forall j :: 0 <= j < adapterIndex ==> !Eligible(adapters[j])
      invariant device == (if HasHardware(adapters[..adapterIndex]) then NoDevice else device0)
      decreases |adapters| - adapterIndex
    {
      var desc := adapters[adapterIndex];
      if !IsSoftware(desc) {
        device := if desc.acceptsD3D12 then DeviceOn(adapter) else NoDevice;
        if desc.acceptsD3D12 {
          break;
        }
      }
      assert adapters[..adapterIndex + 1] == adapters[..adapterIndex] + [desc];
      adapterIndex := adapterIndex + 1;
      adapter := EnumAdapters(adapters, adapterIndex);
    }
    FirstEligibleIsFirst(adapters);
    if adapter.HardwareAdapter? {
      FirstEligibleUnique(adapters, adapterIndex);
    } else {
      assert adapters[..adapterIndex] == adapters;
    }
  }

  // ---------------------------------------------------------------------------
  // The sample object
  // ---------------------------------------------------------------------------

  /** The fields of `DXSample` that its own code in DXSample.cpp reads and writes. */
  class Sample {
    var width: nat
    var height: nat
    var title: string
    var assetsPath: string
    var useWarpDevice: bool
    var hasFactory: bool
    var adapter: AdapterRef
    var device: DeviceRef

    /** `DXSample(width, height, name)`; the assets path is what `GetAssetsPath` reports. */
    constructor (width: nat, height: nat, name: string, assetsPath: string)
      ensures this.width == width && this.height == height
      ensures title == name && this.assetsPath == assetsPath
      ensures !useWarpDevice && !hasFactory && adapter == NoAdapter && device == NoDevice
    {
      this.width, this.height := width, height;
      title, this.assetsPath := name, assetsPath;
      useWarpDevice := false;
      hasFactory, adapter, device := false, NoAdapter, NoDevice;
    }

    /** `GetAssetFullPath`: the assets directory followed by the asset's name. */
    function GetAssetFullPath(assetName: string): (path: string)
      reads this
      ensures |path| == |assetsPath| + |assetName|
      ensures path[..|assetsPath|] == assetsPath && path[|assetsPath|..] == assetName
    {
      assetsPath + assetName
    }

    /** The text `SetCustomWindowText` hands to `SetWindowText`: title, ": ", then the text. */
    function CustomWindowText(text: string): (windowText: string)
      reads this
      ensures |windowText| == |title| + 2 + |text|
      ensures windowText[..|title|] == title
      ensures windowText[|title|..|title| + 2] == ": "
      ensures windowText[|title| + 2..] == text
    {
      title + ": " + text
    }

    /**
     * `ParseCommandLineArgs(argv, argc)` with argc == |argv|: every examined
     * argument that passes the WARP test sets the flag and appends the suffix
     * to the title once more; the flag is never cleared.
     */
    method ParseCommandLineArgs(argv: seq<string>)
      modifies this`useWarpDevice, this`title
      ensures useWarpDevice == (old(useWarpDevice) || WarpCount(UserArgs(argv)) > 0)
      ensures title == old(title) + Repeat(WarpSuffix, WarpCount(UserArgs(argv)))
    {
      ghost var args := UserArgs(argv);
      var i := 1;
      while i < |argv|
        invariant 1 <= i <= |args| + 1
        invariant useWarpDevice == (old(useWarpDevice) || WarpCount(args[..i - 1]) > 0)
        invariant title == old(title) + Repeat(WarpSuffix, WarpCount(args[..i - 1]))
      {
        assert args[..i][..i - 1] == args[..i - 1] && args[i - 1] == argv[i];
        if IsWarpArg(argv[i]) {
          useWarpDevice := true;
          title := title + WarpSuffix;
        }
        i := i + 1;
      }
      assert args[..i - 1] == args;
    }

    /**
     * `CreateFactoryDeviceAdapter`: with the WARP flag, the WARP adapter and a
     * device on it, and no enumeration; otherwise the enumeration loop. Each
     * failing `ThrowIfFailed` call ends the operation with `Thrown`, after its
     * COM pointer has been released.
     */
    method CreateFactoryDeviceAdapter(platform: Platform) returns (status: Status)
      modifies this`hasFactory, this`adapter, this`device
      ensures hasFactory == platform.factoryCreated
      ensures !platform.factoryCreated ==>
        status == Thrown && adapter == old(adapter) && device == old(device)
      ensures platform.factoryCreated && useWarpDevice ==>
        adapter == (if platform.warpEnumerated then WarpAdapter else NoAdapter) &&
        device == (if !platform.warpEnumerated then old(device)
                   else if platform.warpAcceptsD3D12 then DeviceOn(WarpAdapter) else NoDevice) &&
        status == (if platform.warpEnumerated && platform.warpAcceptsD3D12 then Ok else Thrown)
      ensures platform.factoryCreated && !useWarpDevice ==>
        status == Ok && adapter == ChosenAdapter(platform.adapters) &&
        (adapter.HardwareAdapter? ==> device == DeviceOn(adapter)) &&
        (adapter == NoAdapter ==> device == (if HasHardware(platform.adapters) then NoDevice else old(device)))
    {
      hasFactory := platform.factoryCreated;
      if !platform.factoryCreated {
        return Thrown;
      }
      if useWarpDevice {
        adapter := if platform.warpEnumerated then WarpAdapter else NoAdapter;
        if !platform.warpEnumerated {
          return Thrown;
        }
        device := if platform.warpAcceptsD3D12 then DeviceOn(WarpAdapter) else NoDevice;
        status := if platform.warpAcceptsD3D12 then Ok else Thrown;
      } else {
        adapter, device := CreateDeviceOnFirstHardwareAdapter(platform.adapters, device);
        status := Ok;
      }
    }
  }

  /** After parsing, a second matching argument has appended the suffix a second time. */
  lemma TwoWarpArgumentsAppendTwice(prog: string, a: string, b: string)
    requires IsWarpArg(a) && IsWarpArg(b)
    ensures WarpCount(UserArgs([prog, a, b])) == 2
    ensures Repeat(WarpSuffix, WarpCount(UserArgs([prog, a, b]))) == " (WARP) (WARP)"
  {
    assert UserArgs([prog, a, b]) == [a, b];
    assert [a, b][..1] == [a];
    assert [a][..0] == [];
    assert WarpCount([a]) == 1;
  }
}

/**
 * The square sample (D3D12HelloSquare.cpp): its constructor, its own copy of
 * the adapter selection, and the part of `LoadPipeline` that sizes the swap
 * chain and lays out one render-target view per back buffer. Its update,
 * render, destroy, command-list and wait handlers are still empty, and the
 * model says that they change nothing.
 *
 * The sample is a `DXSample`: the base-class part is a `DxSample.Sample`
 * object that the square sample owns.
 */
module HelloSquare {
  import opened DxSample
  import HelloWindow

  /** `D3D12_RECT`, whose coordinates are `LONG`s. */
  datatype Rect = Rect(left: int, top: int, right: int, bottom: int)

  /** `static_cast<long>` of a `UINT`: 32 bits read as a signed number. */
  function LongOf(u: nat): (v: int)
    requires u < 0x1_0000_0000
    ensures -0x8000_0000 <= v < 0x8000_0000
    ensures v >= 0 <==> u < 0x8000_0000
    ensures v == u || v == u - 0x1_0000_0000
  {
    if u < 0x8000_0000 then u else u - 0x1_0000_0000
  }

  /** How `LoadPipeline` ends. */
  datatype PipelineOutcome =
    | Loaded
      /** A `ThrowIfFailed` call threw. */
    | Failed
      /**
       * No device was created, and the next statement calls through the null
       * device pointer.
       */
    | NullDevice

  /**
   * The platform answers for which `InitDirect3DFactoryAndAdapater` throws:
   * no factory, or, with the WARP flag, no WARP adapter or no device on it.
   */
  predicate InitThrows(platform: Platform, useWarpDevice: bool) {
    !platform.factoryCreated
    || (useWarpDevice && !(platform.warpEnumerated && platform.warpAcceptsD3D12))
  }

  /** The fields of `D3D12HelloSquare` that the modelled code reads and writes. */
  class HelloSquareSample {
    const base: Sample
    var frameIndex: nat
    var rtvDescriptorSize: nat
    var hasFenceEvent: bool
    var fenceValue: nat
    var scissorRect: Rect
    var swapChainBufferCount: nat
    var rtvHeapDescriptorCount: nat
    var rtvHandles: seq<nat>

    /**
     * `D3D12HelloSquare(width, height, name)`: the base sample, frame index,
     * fence value and descriptor size 0, no fence event, and a scissor
     * rectangle covering the whole window.
     */
    constructor (width: nat, height: nat, name: string, assetsPath: string)
      requires width < 0x1_0000_0000 && height < 0x1_0000_0000
      ensures fresh(base)
      ensures base.width == width && base.height == height && base.title == name
      ensures base.assetsPath == assetsPath
      ensures !base.useWarpDevice && !base.hasFactory && base.adapter == NoAdapter && base.device == NoDevice
      ensures frameIndex == 0 && fenceValue == 0 && rtvDescriptorSize == 0 && !hasFenceEvent
      ensures scissorRect == Rect(0, 0, LongOf(width), LongOf(height))
      ensures swapChainBufferCount == 0 && rtvHeapDescriptorCount == 0 && rtvHandles == []
    {
      base := new Sample(width, height, name, assetsPath);
      frameIndex := 0;
      scissorRect := Rect(0, 0, LongOf(width), LongOf(height));
      rtvDescriptorSize := 0;
      hasFenceEvent := false;
      fenceValue := 0;
      swapChainBufferCount, rtvHeapDescriptorCount, rtvHandles := 0, 0, [];
    }

    /**
     * `InitDirect3DFactoryAndAdapater`: the factory, then either a device on
     * the WARP adapter (held only in a local pointer) with no enumeration, or
     * the enumeration loop, which skips software adapters and stops at the
     * first adapter that takes a device.
     */
    method InitDirect3DFactoryAndAdapater(platform: Platform) returns (status: Status)
      modifies base`hasFactory, base`device
      ensures base.hasFactory == platform.factoryCreated
      ensures !platform.factoryCreated ==> status == Thrown && base.device == old(base.device)
      ensures platform.factoryCreated && base.useWarpDevice ==>
        base.device == (if !platform.warpEnumerated then old(base.device)
                        else if platform.warpAcceptsD3D12 then DeviceOn(WarpAdapter) else NoDevice) &&
        status == (if platform.warpEnumerated && platform.warpAcceptsD3D12 then Ok else Thrown)
      ensures platform.factoryCreated && !base.useWarpDevice ==>
        status == Ok &&
        base.device == match ChosenAdapter(platform.adapters)
          case HardwareAdapter(k) => DeviceOn(HardwareAdapter(k))
          case _ => if HasHardware(platform.adapters) then NoDevice else old(base.device)
    {
      base.hasFactory := platform.factoryCreated;
      if !platform.factoryCreated {
        return Thrown;
      }
      if base.useWarpDevice {
        if !platform.warpEnumerated {
          return Thrown;
        }
        base.device := if platform.warpAcceptsD3D12 then DeviceOn(WarpAdapter) else NoDevice;
        status := if platform.warpAcceptsD3D12 then Ok else Thrown;
      } else {
        var hardwareAdapter, device := CreateDeviceOnFirstHardwareAdapter(platform.adapters, base.device);
        base.device := device;
        status := Ok;
      }
    }

    /**
     * `LoadPipeline`: after the factory and device, a swap chain and an RTV
     * heap of `FrameCount` entries each, the heap's descriptor size, and one
     * view per back buffer, at the heap start moved on by one descriptor per
     * buffer. The later device calls are taken to succeed; the heap start and
     * the descriptor size are what the device reports.
     */
    method LoadPipeline(platform: Platform, heapStart: nat, descriptorSize: nat)
      returns (outcome: PipelineOutcome)
      modifies this, base`hasFactory, base`device
      ensures base.hasFactory == platform.factoryCreated
      ensures !platform.factoryCreated ==> base.device == old(base.device)
      ensures platform.factoryCreated && base.useWarpDevice ==>
        base.device == (if !platform.warpEnumerated then old(base.device)
                        else if platform.warpAcceptsD3D12 then DeviceOn(WarpAdapter) else NoDevice)
      ensures platform.factoryCreated && !base.useWarpDevice ==>
        base.device == match ChosenAdapter(platform.adapters)
          case HardwareAdapter(k) => DeviceOn(HardwareAdapter(k))
          case _ => if HasHardware(platform.adapters) then NoDevice else old(base.device)
      ensures outcome == Failed <==> InitThrows(platform, base.useWarpDevice)
      ensures outcome == NullDevice <==> !InitThrows(platform, base.useWarpDevice) && base.device == NoDevice
      ensures platform.factoryCreated && !base.useWarpDevice && old(base.device) == NoDevice ==>
        (outcome == NullDevice <==> ChosenAdapter(platform.adapters) == NoAdapter)
      ensures outcome != Loaded ==>
        swapChainBufferCount == old(swapChainBufferCount) &&
        rtvHeapDescriptorCount == old(rtvHeapDescriptorCount) &&
        rtvDescriptorSize == old(rtvDescriptorSize) && rtvHandles == old(rtvHandles)
      ensures outcome == Loaded ==>
        swapChainBufferCount == FrameCount && rtvHeapDescriptorCount == FrameCount &&
        rtvDescriptorSize == descriptorSize && |rtvHandles| == FrameCount &&
        forall n :: 0 <= n < FrameCount ==>
          rtvHandles[n] == HelloWindow.DescriptorHandle(heapStart, n, descriptorSize)
      ensures frameIndex == old(frameIndex) && fenceValue == old(fenceValue)
      ensures hasFenceEvent == old(hasFenceEvent) && scissorRect == old(scissorRect)
    {
      var status := InitDirect3DFactoryAndAdapater(platform);
      if status == Thrown {
        return Failed;
      }
      if base.device == NoDevice {
        return NullDevice;
      }
      swapChainBufferCount := FrameCount;
      rtvHeapDescriptorCount := FrameCount;
      rtvDescriptorSize := descriptorSize;
      rtvHandles := HelloWindow.LayoutRenderTargetViews(heapStart, rtvDescriptorSize, FrameCount);
      outcome := Loaded;
    }

    /** `LoadAssets`: the root-signature description is built in a local and dropped. */
    method LoadAssets()
      ensures unchanged(this) && unchanged(base)
    {
    }

    /** `OnInit`: the pipeline, then the assets, which change nothing. */
    method OnInit(platform: Platform, heapStart: nat, descriptorSize: nat)
      returns (outcome: PipelineOutcome)
      modifies this, base`hasFactory, base`device
      ensures base.hasFactory == platform.factoryCreated
      ensures !platform.factoryCreated ==> base.device == old(base.device)
      ensures platform.factoryCreated && base.useWarpDevice ==>
        base.device == (if !platform.warpEnumerated then old(base.device)
                        else if platform.warpAcceptsD3D12 then DeviceOn(WarpAdapter) else NoDevice)
      ensures platform.factoryCreated && !base.useWarpDevice ==>
        base.device == match ChosenAdapter(platform.adapters)
          case HardwareAdapter(k) => DeviceOn(HardwareAdapter(k))
          case _ => if HasHardware(platform.adapters) then NoDevice else old(base.device)
      ensures outcome == Failed <==> InitThrows(platform, base.useWarpDevice)
      ensures outcome == NullDevice <==> !InitThrows(platform, base.useWarpDevice) && base.device == NoDevice
      ensures platform.factoryCreated && !base.useWarpDevice && old(base.device) == NoDevice ==>
        (outcome == NullDevice <==> ChosenAdapter(platform.adapters) == NoAdapter)
      ensures outcome != Loaded ==>
        swapChainBufferCount == old(swapChainBufferCount) &&
        rtvHeapDescriptorCount == old(rtvHeapDescriptorCount) &&
        rtvDescriptorSize == old(rtvDescriptorSize) && rtvHandles == old(rtvHandles)
      ensures outcome == Loaded ==>
        swapChainBufferCount == FrameCount && rtvHeapDescriptorCount == FrameCount &&
        rtvDescriptorSize == descriptorSize && |rtvHandles| == FrameCount &&
        forall n :: 0 <= n < FrameCount ==>
          rtvHandles[n] == HelloWindow.DescriptorHandle(heapStart, n, descriptorSize)
      ensures frameIndex == old(frameIndex) && fenceValue == old(fenceValue)
      ensures hasFenceEvent == old(hasFenceEvent) && scissorRect == old(scissorRect)
    {
      outcome := LoadPipeline(platform, heapStart, descriptorSize);
      LoadAssets();
    }

    /** `OnUpdate` is empty. */
    method OnUpdate()
      ensures unchanged(this) && unchanged(base)
    {
    }

    /** `OnRender` is empty. */
    method OnRender()
      ensures unchanged(this) && unchanged(base)
    {
    }

    /** `OnDestroy` is empty. */
    method OnDestroy()
      ensures unchanged(this) && unchanged(base)
    {
    }

    /** `PopulateCommandList` is empty. */
    method PopulateCommandList()
      ensures unchanged(this) && unchanged(base)
    {
    }

    /** `WaitForPreviousFrame` is empty. */
    method WaitForPreviousFrame()
      ensures unchanged(this) && unchanged(base)
    {
    }
  }
}

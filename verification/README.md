# D3D12HelloWorld, modelled in Dafny

D3D12HelloWorld is a set of DirectX 12 tutorial samples. Nearly every line
calls into Direct3D 12, DXGI or Win32. This project models the sequential
logic between those calls and proves what it promises:

- The shared `DXSample` base (`dx_sample.dfy`, module `DxSample`). It covers
  command-line parsing with `_wcsnicmp`, the "first non-software adapter that
  accepts Direct3D 12" rule in both its loops, and the asset-path and
  window-title strings.
- The window sample (`hello_window.dfy`, module `HelloWindow`). It covers the
  back-buffer ring, the render-target descriptors, the fence in
  `WaitForPreviousFrame`, the commands `OnRender` and `PopulateCommandList`
  record, the box geometry, and the mouse bookkeeping.
- The window procedure and main loop (`win32_application.dfy`, module
  `Win32App`). These are the pause, minimised, maximised and resizing flags,
  the calls into the sample, the idle loop and the exit code.
- The square sample (`hello_square.dfy`, module `HelloSquare`). It covers its
  constructor, its copy of the adapter loop, the render-target layout in
  `LoadPipeline`, and its empty handlers.
- `UploadBuffer<T>` (`upload_buffer.dfy`, module `Upload`). It covers the
  stride, the allocation size, the strided `CopyData` into mapped memory, and
  the destructor.

Whatever the platform reports is an input to the operation that asks. That
covers the enumerated adapters and whether each accepts a device, the WARP
adapter, heap start addresses, descriptor sizes, the fence's completed
value, whether an event handle was created, and the message queue. The
`Platform` datatype holds the adapter answers; the message queue is a
sequence of `PumpEvent`s.

Behaviour the model keeps as the code has it:

- `WM_GETMINMAXINFO` has no `return`. After writing the 200 by 200 minimum
  tracking size, it runs on into the button-down case, calls `OnMouseDown`
  with the `MINMAXINFO` pointer's bits as coordinates, and captures the mouse
  (`Win32App.MinMaxInfoFallsThrough`).
- `WM_EXITSIZEMOVE` restarts the timer but never calls `OnResize`. The
  `SIZE_RESTORED` messages of a drag are ignored while resizing is set, so a
  whole drag of the frame ends without a single resize
  (`Win32App.DragNeverResizes`).
- In the square sample, `LoadPipeline` calls through `m_device` even when no
  device was created. That happens when every hardware adapter tried refused a
  device, because each attempt releases the pointer first, and also when
  there was no hardware adapter and the pointer was still null. The model
  gives this outcome the name `NullDevice`.
- `_wcsnicmp` is called with the argument's own length. "-warp" therefore
  matches every case-insensitive prefix of "-warp" or "/warp": the empty
  argument, "-" and "/W" all select WARP.
- `CopyData` multiplies an `int` index by a `UINT` stride. The offset is
  therefore taken modulo 2^32, and a negative index writes near the 4 GiB
  mark.

## Model

| member | source | states |
|---|---|---|
| DxSample.CompareOwnLength | D3D12HelloWorld/DXSample.cpp:71-72 | Comparing a C string with another over its own length gives 0 exactly when it is a case-insensitive prefix of the other. |
| DxSample.WarpArgIsPrefix | D3D12HelloWorld/DXSample.cpp:71-72 | An argument selects WARP if and only if it is a case-insensitive prefix of "-warp" or "/warp". |
| DxSample.WarpArgAccepted | D3D12HelloWorld/DXSample.cpp:71-72 | "", "-", "/W" and "-WARP" all select WARP. |
| DxSample.WarpArgRejectsLonger | D3D12HelloWorld/DXSample.cpp:71-72 | "-warpx" does not select WARP. |
| DxSample.WarpArgRejectsBareWord | D3D12HelloWorld/DXSample.cpp:71-72 | "warp", without '-' or '/', does not select WARP. |
| DxSample.ProgramNameIgnored | D3D12HelloWorld/DXSample.cpp:69 | Replacing argv[0] with anything, "-warp" included, does not change the number of WARP matches. |
| DxSample.WarpCountPositive | D3D12HelloWorld/DXSample.cpp:69-77 | The match count is positive if and only if some examined argument selects WARP. |
| DxSample.NonMatchingArgsChangeNothing | D3D12HelloWorld/DXSample.cpp:69-77 | Adding arguments that fail the test leaves the match count, and so the flag and the title, as they were. |
| DxSample.Sample.ParseCommandLineArgs | D3D12HelloWorld/DXSample.cpp:67-78 | The flag becomes its old value or "some argument among argv[1..] matched", so it is never cleared. The title gains " (WARP)" once per matching argument and nothing else. A match is `IsWarpArg`: `CompareNoCase` (the model of `_wcsnicmp`) over the argument's own length gives 0 against "-warp" or "/warp". |
| DxSample.TwoWarpArgumentsAppendTwice | D3D12HelloWorld/DXSample.cpp:73-76 | Two matching arguments append " (WARP) (WARP)". |
| DxSample.EnumAdapters | D3D12HelloWorld/DXSample.cpp:37 | Enumeration yields no adapter exactly when the index is past the list. |
| DxSample.FirstEligibleIsFirst | D3D12HelloWorld/DXSample.cpp:30-31 | The reference rule picks a non-software adapter that accepts Direct3D 12, with none before it. It picks none exactly when no adapter qualifies. |
| DxSample.FirstEligibleUnique | D3D12HelloWorld/DXSample.cpp:30-31 | An index that qualifies, with none before it, is the one the reference rule picks. |
| DxSample.GetHardwareAdapter | D3D12HelloWorld/DXSample.cpp:33-56 | The loop returns the reference rule's choice: never a software adapter, never WARP, the first that qualifies, and null exactly when none does. |
| DxSample.CreateDeviceOnFirstHardwareAdapter | D3D12HelloWorld/DXSample.cpp:101-115 | The adapter is the reference rule's choice, with a device on it. Otherwise the device is null if any non-software adapter was tried, and unchanged if none was. |
| DxSample.Sample.constructor | D3D12HelloWorld/DXSample.cpp:6-17 | Width, height, title and assets path are stored; WARP is off; there is no factory, adapter or device. |
| DxSample.Sample.GetAssetFullPath | D3D12HelloWorld/DXSample.cpp:25-28 | The path is the assets directory followed by the asset name. |
| DxSample.Sample.CustomWindowText | D3D12HelloWorld/DXSample.cpp:59-63 | The window text is the title, then ": ", then the text. |
| DxSample.Sample.CreateFactoryDeviceAdapter | D3D12HelloWorld/DXSample.cpp:80-117 | Without a factory it throws. With WARP it uses the WARP adapter, does no enumeration, and throws if the adapter or its device fails. Otherwise it gives the enumeration loop's adapter and device. |
| HelloWindow.LayoutRenderTargetViews | D3D12HelloWorld/D3D12HelloWindow.cpp:125-135 | Advancing the handle one descriptor per view puts view n at heap start + n × descriptor size. |
| HelloWindow.DescriptorHandlesDisjoint | D3D12HelloWorld/D3D12HelloWindow.cpp:125-135 | With a non-zero descriptor size, different buffers' views never overlap, and each lies inside the heap. |
| HelloWindow.HelloWindowSample.LoadPipeline | D3D12HelloWorld/D3D12HelloWindow.cpp:88-135 | The swap chain and the RTV heap both get the frame count. The current buffer is the one the swap chain reports. One view per buffer is created at its heap offset. |
| HelloWindow.HelloWindowSample.constructor | D3D12HelloWorld/D3D12HelloWindow.cpp:10-14 | The frame count is stored. Frame index, fence value and descriptor size are 0. There is no fence, no event, no view and no geometry. `m_fenceEvent` has no initializer, and the model reads that unset handle as "no event". |
| HelloWindow.NextFrameIndex | D3D12HelloWorld/D3D12HelloWindow.cpp:255 | The next back-buffer index stays inside the ring. |
| HelloWindow.FrameIndexAfterIsModular | D3D12HelloWorld/D3D12HelloWindow.cpp:255 | After k frames the index is (i + k) mod frame count. |
| HelloWindow.FrameRingVisitsEvery | D3D12HelloWorld/D3D12HelloWindow.cpp:255 | Every buffer becomes current within one turn of the ring, and after frame-count frames the ring is back at its start. |
| HelloWindow.HelloWindowSample.OnRender | D3D12HelloWorld/D3D12HelloWindow.cpp:188-259 | The current buffer is moved to the render-target state and the "box" entry's index count is drawn once from index 0 and vertex 0. The frame index then moves to the next buffer of the ring, keeping the sample's invariant. |
| HelloWindow.WithBoxEntry | D3D12HelloWorld/D3D12HelloWindow.cpp:237-240 | Looking up "box" leaves an entry behind and keeps an existing entry as it was. The count read is 0 when the entry was missing. |
| HelloWindow.HelloWindowSample.PopulateCommandList | D3D12HelloWorld/D3D12HelloWindow.cpp:270-295 | It records three commands: a barrier to render target, a clear through the view created for the current buffer, and a barrier back to present. |
| HelloWindow.HelloWindowSample.LoadAssets | D3D12HelloWorld/D3D12HelloWindow.cpp:150-161 | The fence is created at 0 and the first value to signal is 1. It throws exactly when the event handle was not created. |
| HelloWindow.HelloWindowSample.WaitForPreviousFrame | D3D12HelloWorld/D3D12HelloWindow.cpp:297-315 | The current value is signalled and the counter moves on by exactly one. It waits exactly when the GPU is behind the signalled value, and on return that value has completed. |
| HelloWindow.SignalledValuesAt | D3D12HelloWorld/D3D12HelloWindow.cpp:305-307 | The k-th signalled value is the starting value + k. |
| HelloWindow.SignalledStrictlyIncreasing | D3D12HelloWorld/D3D12HelloWindow.cpp:305-307 | Successive signalled values strictly increase, so no value is signalled twice. |
| HelloWindow.BoxGeometry | D3D12HelloWorld/D3D12HelloWindow.cpp:392-461 | 8 vertices and 36 indices, all below 8. The vertex bytes are 8 × stride = 224 and the index bytes are 36 × 2 = 72. The "box" submesh covers all indices from 0. |
| HelloWindow.BoxTrianglesWellFormed | D3D12HelloWorld/D3D12HelloWindow.cpp:405-430 | The 36 indices form 12 triangles with three distinct corners each, and every corner is used. |
| HelloWindow.BoxDrawCoversAllIndices | D3D12HelloWorld/D3D12HelloWindow.cpp:455-460 | The count drawn for "box" is all 36 indices. |
| HelloWindow.HelloWindowSample.BuildOwnGeometry | D3D12HelloWorld/D3D12HelloWindow.cpp:392-461 | The sample's geometry becomes the box. |
| HelloWindow.HelloWindowSample.OnMouseDown | D3D12HelloWorld/D3D12HelloWindow.cpp:501-505 | The pointer position is stored. |
| HelloWindow.Gesture | D3D12HelloWorld/D3D12HelloWindow.cpp:514-534 | With the left button down the camera orbits, else with the right button it zooms, else nothing happens. Left wins when both are down. The offsets are passed on unchanged. |
| HelloWindow.HelloWindowSample.OnMouseMove | D3D12HelloWorld/D3D12HelloWindow.cpp:512-555 | The gesture uses the offsets from the stored position, and the new position is stored whatever buttons are held. |
| HelloWindow.MoveDeltasTelescope | D3D12HelloWorld/D3D12HelloWindow.cpp:553-554 | The offsets of successive moves add up to the distance from the first position to the last. |
| Win32App.LoWord | D3D12HelloWorld/Win32Application.cpp:113 | The low word is below 2^16. |
| Win32App.HiWord | D3D12HelloWorld/Win32Application.cpp:114 | The high word is below 2^16. |
| Win32App.LoDword | D3D12HelloWorld/Win32Application.cpp:98 | The low double word is below 2^32. |
| Win32App.PointRoundTrip | D3D12HelloWorld/Win32Application.cpp:196 | The coordinate macros read back every signed 16-bit point packed into lParam, negative ones included. |
| Win32App.KeyCode | D3D12HelloWorld/Win32Application.cpp:208 | The key code handed on is below 256. |
| Win32App.ExitCode | D3D12HelloWorld/Win32Application.cpp:83 | The exit code is the low byte of wParam read as a signed char, so it lies in [-128, 128). |
| Win32App.SizeStoresDimensions | D3D12HelloWorld/Win32Application.cpp:112-115 | WM_SIZE always stores the width from the low word and the height from the high word, and returns 0. Without a device it changes nothing else. |
| Win32App.SizeMinimizedPauses | D3D12HelloWorld/Win32Application.cpp:117-122 | SIZE_MINIMIZED pauses, sets minimised, clears maximised and calls nothing. |
| Win32App.SizeMaximizedResizesOnce | D3D12HelloWorld/Win32Application.cpp:123-129 | SIZE_MAXIMIZED unpauses, sets maximised, clears minimised and resizes exactly once. |
| Win32App.SizeRestoredCases | D3D12HelloWorld/Win32Application.cpp:130-163 | SIZE_RESTORED tests minimised, then maximised, then resizing. The first two each clear their own flag, unpause and resize once. While resizing nothing but the size changes. Otherwise it resizes once. |
| Win32App.SizeMoveBrackets | D3D12HelloWorld/Win32Application.cpp:169-181 | WM_ENTERSIZEMOVE pauses, sets resizing and stops the timer. WM_EXITSIZEMOVE undoes all three and does not resize. |
| Win32App.MinMaxInfoFallsThrough | D3D12HelloWorld/Win32Application.cpp:189-198 | WM_GETMINMAXINFO writes the 200 by 200 minimum, then does exactly what a button press does: OnMouseDown and capture. |
| Win32App.HandleKeepsMinMaxExclusive | D3D12HelloWorld/Win32Application.cpp:112-165 | No message leaves the window both minimised and maximised. |
| Win32App.HandleKeepsAttached | D3D12HelloWorld/Win32Application.cpp:87-234 | Once stored, the sample pointer stays stored. |
| Win32App.HandleNeverDestroys | D3D12HelloWorld/Win32Application.cpp:87-234 | No message makes the window procedure call OnDestroy. |
| Win32App.WindowedSample.WindowProc | D3D12HelloWorld/Win32Application.cpp:87-234 | The procedure changes the sample and returns exactly as the message-by-message definition `Handle` does (with `SizeFlags` for the device part of `WM_SIZE`). The lemmas above state what that definition does for each message. |
| Win32App.WindowedSample.Run | D3D12HelloWorld/Win32Application.cpp:59-83 | The loop's final state and exit code are those of the event-by-event definition `RunFrom` over a sequence of `PumpEvent`s (an empty queue is `IdleStep`), whose properties the lemmas below state. |
| Win32App.IdleTicks | D3D12HelloWorld/Win32Application.cpp:69-77 | An empty queue always ticks the timer, and computes the frame statistics exactly when not paused. |
| Win32App.RunStopsAtQuit | D3D12HelloWorld/Win32Application.cpp:61-83 | Nothing after the first WM_QUIT is processed. `OnDestroy` is then called once, on the state the earlier messages left, and nothing else changes. The exit code is that message's wParam as a char. |
| Win32App.RunWithoutQuitKeepsGoing | D3D12HelloWorld/Win32Application.cpp:61-80 | Without WM_QUIT the loop does not finish and OnDestroy is never called. |
| Win32App.RunKeepsMinMaxExclusive | D3D12HelloWorld/Win32Application.cpp:61-78 | The main loop never leaves the window both minimised and maximised. |
| Win32App.RestoredStream | D3D12HelloWorld/Win32Application.cpp:148-158 | A drag's stream holds one SIZE_RESTORED message per reported size, in order. |
| Win32App.RestoredWhileDragging | D3D12HelloWorld/Win32Application.cpp:148-158 | While resizing, any number of SIZE_RESTORED messages only record the last size. |
| Win32App.DragNeverResizes | D3D12HelloWorld/Win32Application.cpp:148-181 | A whole drag (grab, size messages, release) ends unpaused and not resizing, with the timer stopped and restarted, and with no OnResize call at all. |
| Win32App.ResizeCountAppend | D3D12HelloWorld/Win32Application.cpp:128 | Calls other than OnResize leave the resize count unchanged. |
| HelloSquare.LongOf | D3D12HelloWorld/D3D12HelloSquare.cpp:8 | Casting a UINT to long reads the 32 bits as signed: unchanged below 2^31, negative from there on. |
| HelloSquare.HelloSquareSample.constructor | D3D12HelloWorld/D3D12HelloSquare.cpp:4-14 | The base sample is built with the given size, title and assets path, WARP off, and no factory, adapter or device. Frame index, fence value and descriptor size are 0, there is no fence event, and the scissor rectangle covers the window. |
| HelloSquare.HelloSquareSample.InitDirect3DFactoryAndAdapater | D3D12HelloWorld/D3D12HelloSquare.cpp:22-62 | Without a factory it throws. With WARP it uses the WARP device and does no enumeration. Otherwise it gives the enumeration loop's device: on the first qualifying adapter, else null if a hardware adapter was tried. |
| HelloSquare.HelloSquareSample.LoadPipeline | D3D12HelloWorld/D3D12HelloSquare.cpp:64-127 | The factory and device are left as the adapter step leaves them: the WARP device, or a device on the first qualifying hardware adapter, else null if a hardware adapter was tried. It fails exactly when the factory or adapter step throws, and calls through a null device exactly when none was created. Otherwise the swap chain and the RTV heap both get FrameCount and view n sits at heap start + n × descriptor size. Frame index, fence value, fence event and scissor rectangle are unchanged, and so is everything else on failure. |
| HelloSquare.HelloSquareSample.OnInit | D3D12HelloWorld/D3D12HelloSquare.cpp:16-20 | Everything LoadPipeline promises, about the device, the outcome, the views and the unchanged fields, because LoadAssets then changes nothing. |
| HelloSquare.HelloSquareSample.LoadAssets | D3D12HelloWorld/D3D12HelloSquare.cpp:128-136 | Nothing changes. |
| HelloSquare.HelloSquareSample.OnUpdate | D3D12HelloWorld/D3D12HelloSquare.cpp:139-142 | Nothing changes. |
| HelloSquare.HelloSquareSample.OnRender | D3D12HelloWorld/D3D12HelloSquare.cpp:145-148 | Nothing changes. |
| HelloSquare.HelloSquareSample.OnDestroy | D3D12HelloWorld/D3D12HelloSquare.cpp:150-153 | Nothing changes. |
| HelloSquare.HelloSquareSample.PopulateCommandList | D3D12HelloWorld/D3D12HelloSquare.cpp:155-158 | Nothing changes. |
| HelloSquare.HelloSquareSample.WaitForPreviousFrame | D3D12HelloWorld/D3D12HelloSquare.cpp:160-163 | Nothing changes. |
| Upload.UploadBuffer.constructor | D3D12HelloWorld/UploadBuffer.h:9-30 | The stride is the element size, or the constant-buffer size for a constant buffer. The allocation is stride × count and fits in 64 bits. The resource is created and mapped. |
| Upload.ProductFits | D3D12HelloWorld/UploadBuffer.h:21 | The product of two 32-bit values never overflows 64 bits. |
| Upload.ElementOffset | D3D12HelloWorld/UploadBuffer.h:50 | The offset is below 2^32. |
| Upload.UploadBuffer.CopyData | D3D12HelloWorld/UploadBuffer.h:48-51 | The element's bytes are written at the index's offset, and every other byte of the mapped memory is unchanged. |
| Upload.Overwrite | D3D12HelloWorld/UploadBuffer.h:50 | The bytes in the written window are the data, and all other bytes are the old ones. |
| Upload.CopyReadsBack | D3D12HelloWorld/UploadBuffer.h:48-51 | Right after a copy, the element reads back as the data copied. |
| Upload.OffsetInRange | D3D12HelloWorld/UploadBuffer.h:48-51 | For an index in range and a buffer of at most 2^32 bytes, the offset is index × stride and the element ends inside the buffer. |
| Upload.ElementsDisjoint | D3D12HelloWorld/UploadBuffer.h:48-51 | In a mapped buffer of at most 2^32 bytes whose stride is at least the element size, distinct indices in range occupy disjoint byte ranges. Beyond 2^32 bytes the 32-bit offset wraps and two indices can share bytes (`Upload.OffsetWrapsAt4GiB`). |
| Upload.CopyKeepsOtherElements | D3D12HelloWorld/UploadBuffer.h:48-51 | In a mapped buffer of at most 2^32 bytes whose stride is at least the element size, copying element i leaves every byte of every other in-range element j as it was. |
| Upload.OffsetWrapsAt4GiB | D3D12HelloWorld/UploadBuffer.h:50 | With a 256-byte stride, index 2^24 writes at offset 0, on top of element 0. |
| Upload.NegativeIndexWraps | D3D12HelloWorld/UploadBuffer.h:50 | Index -1 writes one stride below 4 GiB. |
| Upload.UploadBuffer.Release | D3D12HelloWorld/UploadBuffer.h:34-41 | It unmaps exactly when a resource is held, and afterwards holds no resource and no mapping. |

## Left out

- Direct3D 12 and DXGI calls other than factory, adapter and device creation are taken to succeed. This covers the command queue, swap chain, descriptor heaps, `GetBuffer`, command allocator, command list, root signature, shaders, PSO, `CreateCommittedResource`, `Map`, `Present` and `ExecuteCommandLists`. Their results appear only as parameters (heap start, descriptor size, current back buffer).
- The `_DEBUG` debug layer. In DXSample.cpp:83-88, `D3D12GetDebugInterface` goes through `ThrowIfFailed` and can throw, and the flag it computes is never used, because `CreateDXGIFactory2` is passed 0 at line 89. In the two samples (D3D12HelloWindow.cpp:43-54, D3D12HelloSquare.cpp:25-32), a failure is skipped and the flag is passed on. The model follows release builds, where none of this code exists.
- Floating-point work is not modelled. This covers the aspect ratio, viewport, camera angles and radius with their clamps, `OnUpdate`'s matrices, and the projection in `OnResize`. `OnMouseMove` yields the integer offsets it scales instead.
- `HelloWindow.HelloWindowSample.LoadPipeline` models the swap-chain and descriptor part only. Its factory and device creation (D3D12HelloWindow.cpp:56-78) is not modelled. There, without WARP, `GetHardwareAdapter` (modelled as `DxSample.GetHardwareAdapter`) picks an adapter once. A single `D3D12CreateDevice` call follows; given a null adapter it uses the default adapter, and it throws on failure. This differs from the retrying loop of `DxSample.Sample.CreateFactoryDeviceAdapter`.
- `HelloWindow.HelloWindowSample.OnRender` tracks the first barrier and the draw. The clears, render targets, root signature, vertex and index buffer views, the second barrier and `FlushCommandQueue` are not tracked; `FlushCommandQueue` is not part of this model.
- The constant-buffer, root-signature, shader and PSO builders of D3D12HelloWindow.cpp (`OnInit`, `BuildConstantDescriptorHeaps`, `BuildConstantBuffers`, `BuildRootSignature`, `BuildShaderAndInputLayout`, `BuildPSO`), and `OnDestroy`, whose body is commented out.
- HelloWindow.HelloWindowSample.constructor: `m_fenceEvent` has no initializer (DXSample.h:98) and D3D12HelloWindow.cpp:10-14 does not set it. An indeterminate handle has no counterpart here, so the model starts with "no event" (`!hasFenceEvent`) until `LoadAssets` sets the handle.
- The OS side of the fence (`GetCompletedValue`, `SetEventOnCompletion`, `WaitForSingleObject`, `CreateEvent`) is not modelled. The completed value is a parameter that never goes back and never passes what was signalled; waiting is taken to return once the value completes.
- Window class registration, `AdjustWindowRect`, `CreateWindow`, `ShowWindow`, `UpdateWindow` and the sample's `OnInit` call in `Run` (Win32Application.cpp:20-57). The command-line parse it starts with is `DxSample.Sample.ParseCommandLineArgs`.
- `Win32App.Handle`: requires the sample pointer to be stored already for the messages whose case calls through it without testing it (`Win32App.UsesSample`). The procedure reads the pointer from `GWLP_USERDATA` before the `WM_CREATE` case stores it (Win32Application.cpp:89, 97-106). So the first `WM_CREATE`, and any `WM_GETMINMAXINFO` that arrives before it, call through a null pointer. The model does not describe those calls.
- `TranslateMessage` and `DispatchMessage`: each message taken from the queue goes straight to the window procedure. `PostQuitMessage` only records that it was called, because the `WM_QUIT` it produces arrives as a later event of the queue.
- `SetCapture` and `ReleaseCapture` are a `captured` flag; `MINMAXINFO` is the pair the procedure writes.
- The bodies of `OnResize`, `OnKeyDown`, `OnKeyUp`, `OnMouseUp` and the `GameTimer` operations are only recorded as calls. DXSample.h and GameTimer.h hold declarations only.
- `DXSample::CreateFence`, `InitDescriptorSize`, `CheckFeatureSupport`, `CreateCommandQueue`, `CreateCommandAllocator`, `CreateCommandList` and `CreateCommandObjects` (DXSample.cpp:119-181) are single device calls.
- `DxSample.CompareNoCase`: folds case for 'A'..'Z' only, as the "C" locale does. Other locales are not modelled.
- `CalculateConstantBufferByteSize` is not part of this model. Its result is a parameter of the `UploadBuffer` constructor, with no 256-byte rounding assumed.
- `Upload.UploadBuffer.constructor`: models only the path on which resource creation and `Map` succeed. The mapped memory starts as zeros, because its initial contents are not known.
- `UploadBuffer::Resource()` only returns the held pointer. The deleted copy constructor and assignment have no behaviour.
- D3D12HelloTexture.cpp is not part of this model; it is unfinished device setup.

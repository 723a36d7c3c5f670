/**
 * The GPU surface context: how the surface is configured when the window
 * is created (texture format, present mode from the vsync setting, frame
 * latency) and how it follows window resizes. The GPU objects themselves
 * (instance, surface, adapter, device, queue) are not modelled; the outcome
 * of acquiring them is a parameter.
 */
module GpuContexts {
  import opened Wrappers

  /** The user's vsync setting. */
  datatype VsyncMode = Enabled | Disabled | MailboxIfAvailable | DisplayLink

  /** The presentation modes a surface can be configured with. */
  datatype PresentMode = AutoVsync | AutoNoVsync | Fifo | FifoRelaxed | Immediate | Mailbox

  /** The platform the program is built for; only macOS is told apart. */
  datatype TargetOs = MacOs | OtherOs

  /** A surface texture format, identified by number, and whether it is sRGB. */
  datatype TextureFormat = TextureFormat(id: nat, isSrgb: bool)

  /** What the surface supports on the chosen adapter: formats, present
      modes and alpha modes, each in the adapter's order of preference. */
  datatype SurfaceCapabilities = SurfaceCapabilities(
    formats: seq<TextureFormat>,
    presentModes: seq<PresentMode>,
    alphaModes: seq<nat>)

  /** `GpuContextError`. */
  datatype GpuContextError = InvalidSize | CreateSurface | NoAdapter | RequestDevice

  /** The surface configuration the context keeps (the `u32` sizes as naturals). */
  datatype SurfaceConfig = SurfaceConfig(
    format: TextureFormat,
    width: nat,
    height: nat,
    presentMode: PresentMode,
    alphaMode: nat,
    maxFrameLatency: nat)

  /** `select_present_mode`. */
  function SelectPresentMode(caps: SurfaceCapabilities, vsync: VsyncMode, os: TargetOs): (p: PresentMode)
    ensures vsync == Enabled ==> p == AutoVsync
    ensures vsync == Disabled ==> p == AutoNoVsync
    ensures vsync == MailboxIfAvailable ==> (p == Mailbox <==> Mailbox in caps.presentModes)
    ensures vsync == MailboxIfAvailable && Mailbox !in caps.presentModes ==> p == AutoVsync
    ensures vsync == DisplayLink ==> p == (if os == MacOs then AutoNoVsync else AutoVsync)
  {
    match vsync
    case Enabled => AutoVsync
    case Disabled => AutoNoVsync
    case MailboxIfAvailable => if Mailbox in caps.presentModes then Mailbox else AutoVsync
    case DisplayLink => if os == MacOs then AutoNoVsync else AutoVsync
  }

  /** Only three modes ever come out of the selection, and `Mailbox` only
      when the surface offers it. */
  lemma SelectedModeOffered(caps: SurfaceCapabilities, vsync: VsyncMode, os: TargetOs)
    ensures SelectPresentMode(caps, vsync, os) in {AutoVsync, AutoNoVsync, Mailbox}
    ensures SelectPresentMode(caps, vsync, os) == Mailbox ==> Mailbox in caps.presentModes && vsync == MailboxIfAvailable
  {
  }

  /** Whether a present mode waits for vertical blank. */
  predicate UsesVsync(p: PresentMode)
  {
    p == AutoVsync || p == Fifo || p == Mailbox
  }

  /** The desired maximum frame latency: one frame in flight with vsync, two without. */
  function MaxFrameLatency(p: PresentMode): (n: nat)
    ensures n == 1 <==> UsesVsync(p)
    ensures n == 2 <==> !UsesVsync(p)
  {
    if UsesVsync(p) then 1 else 2
  }

  /** Every vsync setting ends with one frame in flight, except turning
      vsync off and, on macOS, leaving timing to the display link. */
  lemma LatencyOfSetting(caps: SurfaceCapabilities, vsync: VsyncMode, os: TargetOs)
    ensures MaxFrameLatency(SelectPresentMode(caps, vsync, os))
         == (if vsync == Disabled || (vsync == DisplayLink && os == MacOs) then 2 else 1)
  {
  }

  /** The first sRGB format in the list, if any. */
  function FirstSrgb(formats: seq<TextureFormat>): (r: Option<TextureFormat>)
    ensures r.None? <==> forall i :: 0 <= i < |formats| ==> !formats[i].isSrgb
    ensures r.Some? ==> exists i :: 0 <= i < |formats| && formats[i] == r.value
                                    && r.value.isSrgb && forall j :: 0 <= j < i ==> !formats[j].isSrgb
  {
    if |formats| == 0 then None
    else if formats[0].isSrgb then Some(formats[0])
    else
      var rest := FirstSrgb(formats[1..]);
      if rest.Some? then
        ghost var k :| 0 <= k < |formats[1..]| && formats[1..][k] == rest.value
                       && rest.value.isSrgb && forall j :: 0 <= j < k ==> !formats[1..][j].isSrgb;
        assert formats[k + 1] == rest.value;
        assert forall j :: 0 <= j < k + 1 ==> !formats[j].isSrgb by {
          forall j | 0 <= j < k + 1 ensures !formats[j].isSrgb {
            if j > 0 { assert formats[j] == formats[1..][j - 1]; }
          }
        }
        rest
      else
        assert forall i :: 0 <= i < |formats| ==> !formats[i].isSrgb by {
          forall i | 0 <= i < |formats| ensures !formats[i].isSrgb {
            if i > 0 { assert formats[i] == formats[1..][i - 1]; }
          }
        }
        rest
  }

  /** The surface format: the first sRGB one, else the first one offered.
      An empty list is a panic in the source (indexing `formats[0]`). */
  function SurfaceFormat(formats: seq<TextureFormat>): (f: TextureFormat)
    requires |formats| > 0
    ensures f in formats
    ensures f.isSrgb <==> exists i :: 0 <= i < |formats| && formats[i].isSrgb
    ensures !f.isSrgb ==> f == formats[0]
  {
    FirstSrgb(formats).GetOr(formats[0])
  }

  /** `GpuContext::new` up to the surface configuration. `setup` is the
      outcome of creating the surface and acquiring an adapter and device:
      the capabilities they report, or the error that stopped them. */
  function NewSurfaceConfig(width: nat, height: nat, vsync: VsyncMode, os: TargetOs,
                            setup: Result<SurfaceCapabilities, GpuContextError>): (r: Result<SurfaceConfig, GpuContextError>)
    requires setup.Ok? ==> |setup.value.formats| > 0 && |setup.value.alphaModes| > 0
    ensures width == 0 || height == 0 ==> r == Err(InvalidSize)
    ensures width > 0 && height > 0 && setup.Err? ==> r == Err(setup.error)
    ensures r.Ok? <==> width > 0 && height > 0 && setup.Ok?
    ensures r.Ok? ==>
      var caps := setup.value;
      && r.value.width == width && r.value.height == height
      && r.value.format == SurfaceFormat(caps.formats)
      && r.value.presentMode == SelectPresentMode(caps, vsync, os)
      && r.value.alphaMode == caps.alphaModes[0]
      && r.value.maxFrameLatency == MaxFrameLatency(r.value.presentMode)
      && r.value.maxFrameLatency == (if UsesVsync(r.value.presentMode) then 1 else 2)
  {
    if width == 0 || height == 0 then Err(InvalidSize)
    else
      match setup
      case Err(e) => Err(e)
      case Ok(caps) =>
        var mode := SelectPresentMode(caps, vsync, os);
        Ok(SurfaceConfig(SurfaceFormat(caps.formats), width, height, mode, caps.alphaModes[0], MaxFrameLatency(mode)))
  }

  /** A created surface always has a positive size. */
  lemma CreatedSurfaceNonEmpty(width: nat, height: nat, vsync: VsyncMode, os: TargetOs,
                               setup: Result<SurfaceCapabilities, GpuContextError>)
    requires setup.Ok? ==> |setup.value.formats| > 0 && |setup.value.alphaModes| > 0
    ensures var r := NewSurfaceConfig(width, height, vsync, os, setup);
      r.Ok? ==> r.value.width > 0 && r.value.height > 0
  {
  }

  /** The configuration after a window resize: the new size when both sides
      are positive, otherwise unchanged. */
  function Resized(config: SurfaceConfig, width: nat, height: nat): (c: SurfaceConfig)
    ensures c.format == config.format && c.presentMode == config.presentMode
    ensures c.alphaMode == config.alphaMode && c.maxFrameLatency == config.maxFrameLatency
    ensures width > 0 && height > 0 ==> c.width == width && c.height == height
    ensures width == 0 || height == 0 ==> c == config
  {
    if width > 0 && height > 0 then config.(width := width, height := height) else config
  }

  /** Resizing to the same size twice is resizing once, and a surface with a
      positive size keeps one whatever the window reports. */
  lemma ResizedProperties(config: SurfaceConfig, width: nat, height: nat)
    ensures Resized(Resized(config, width, height), width, height) == Resized(config, width, height)
    ensures config.width > 0 && config.height > 0 ==>
      Resized(config, width, height).width > 0 && Resized(config, width, height).height > 0
  {
  }

  /** `GpuContext`, reduced to its surface configuration. */
  class GpuContext {
    var config: SurfaceConfig

    ghost predicate Valid()
      reads this
    {
      config.width > 0 && config.height > 0
    }

    /** The context `new` builds around a successfully created configuration. */
    constructor (config: SurfaceConfig)
      requires config.width > 0 && config.height > 0
      ensures Valid() && this.config == config
    {
      this.config := config;
    }

    /** `resize`: zero sizes (a minimised window) are ignored. */
    method Resize(width: nat, height: nat)
      requires Valid()
      modifies this
      ensures Valid()
      ensures config == Resized(old(config), width, height)
    {
      if width > 0 && height > 0 {
        config := config.(width := width, height := height);
      }
    }

    /** `size`. */
    function Size(): (s: (nat, nat))
      reads this
      ensures s == (config.width, config.height)
    {
      (config.width, config.height)
    }

    /** `format`. */
    function Format(): (f: TextureFormat)
      reads this
      ensures f == config.format
    {
      config.format
    }
  }
}

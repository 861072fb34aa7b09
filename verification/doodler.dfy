/**
 * The canvas rule of src/hooks/useDoodler.ts: the drawing surface of a card face
 * is sized from the renderer configuration and is kept, created or recreated.
 * The drawing library itself is not modelled: a surface is a record with a size.
 */
module Doodler {
  import opened Wrappers
  import opened Types
  import Debounce

  /**
   * A drawing surface. `serial` tells surfaces apart: a surface that is kept
   * has the serial it had, a newly created one the serial it was created with.
   */
  datatype Surface = Surface(serial: nat, width: real, height: real)

  /** `(width + bleed + bleed) * ppi`. */
  function TargetWidth(cfg: RendererConfig): real
  {
    (cfg.width + cfg.bleed + cfg.bleed) * cfg.ppi
  }

  /** `(height + bleed + bleed) * ppi`. */
  function TargetHeight(cfg: RendererConfig): real
  {
    (cfg.height + cfg.bleed + cfg.bleed) * cfg.ppi
  }

  /** Whether a surface already has the size the configuration asks for. */
  predicate Fits(s: Surface, cfg: RendererConfig)
  {
    s.width == TargetWidth(cfg) && s.height == TargetHeight(cfg)
  }

  /** `createDoodler`: nothing without a mounted canvas, otherwise a new surface of the target size. */
  function CreateSurface(cfg: RendererConfig, canvasMounted: bool, serial: nat): (r: Option<Surface>)
    ensures r.Some? <==> canvasMounted
    ensures r.Some? ==> Fits(r.value, cfg) && r.value.serial == serial
  {
    if canvasMounted then Some(Surface(serial, TargetWidth(cfg), TargetHeight(cfg))) else None
  }

  /**
   * The update the effect hands to the debounced setter: create a surface when
   * there is none, replace one whose size differs from the target, keep one that fits.
   */
  function NextSurface(current: Option<Surface>, cfg: RendererConfig, canvasMounted: bool, serial: nat)
    : (r: Option<Surface>)
    ensures current.Some? && Fits(current.value, cfg) ==> r == current
    ensures current.None? || !Fits(current.value, cfg) ==> r == CreateSurface(cfg, canvasMounted, serial)
    ensures r.Some? ==> Fits(r.value, cfg)
    ensures r.None? <==> (current.None? || !Fits(current.value, cfg)) && !canvasMounted
  {
    if current.None? then CreateSurface(cfg, canvasMounted, serial)
    else if !Fits(current.value, cfg) then CreateSurface(cfg, canvasMounted, serial)
    else current
  }

  /** Running the rule again with the same configuration keeps the surface the first run produced. */
  lemma NextSurfaceSettles(current: Option<Surface>, cfg: RendererConfig, mounted: bool, serial: nat, serial': nat)
    requires NextSurface(current, cfg, mounted, serial).Some?
    ensures NextSurface(NextSurface(current, cfg, mounted, serial), cfg, mounted, serial') ==
            NextSurface(current, cfg, mounted, serial)
  {
  }

  /**
   * The effect that runs whenever the size, bleed or resolution changes: the surface is
   * kept for now, and when the timer fires it becomes the one the rule gives for it.
   */
  function ConfigChanged(d: Debounce.Debounced<Surface>, cfg: RendererConfig, canvasMounted: bool, serial: nat)
    : (d': Debounce.Debounced<Surface>)
    ensures d'.value == d.value && d'.pending.Some?
    ensures Debounce.Fired(d').value == NextSurface(d.value, cfg, canvasMounted, serial)
  {
    Debounce.Set(d, Debounce.Apply((prev: Option<Surface>) => NextSurface(prev, cfg, canvasMounted, serial)))
  }

  /** A run of configuration changes: the last one is the pending update. */
  function ConfigsChanged(d: Debounce.Debounced<Surface>, cfgs: seq<RendererConfig>, canvasMounted: bool, serial: nat)
    : Debounce.Debounced<Surface>
    decreases |cfgs|
  {
    if cfgs == [] then d
    else ConfigsChanged(ConfigChanged(d, cfgs[0], canvasMounted, serial), cfgs[1..], canvasMounted, serial)
  }

  /**
   * However many configurations are entered before the debounce timer fires, the
   * surface that results is sized for the last one alone.
   */
  lemma {:induction false} SurfaceFollowsLastConfig(
    d: Debounce.Debounced<Surface>, cfgs: seq<RendererConfig>, serial: nat)
    requires cfgs != []
    ensures var last := cfgs[|cfgs| - 1];
            var d' := Debounce.Fired(ConfigsChanged(d, cfgs, true, serial));
            d'.value.Some? && Fits(d'.value.value, last) && d'.pending.None?
    decreases |cfgs|
  {
    if |cfgs| == 1 {
      assert ConfigsChanged(d, cfgs, true, serial) == ConfigChanged(d, cfgs[0], true, serial);
    } else {
      SurfaceFollowsLastConfig(ConfigChanged(d, cfgs[0], true, serial), cfgs[1..], serial);
      assert cfgs[1..][|cfgs[1..]| - 1] == cfgs[|cfgs| - 1];
    }
  }
}

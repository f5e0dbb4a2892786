/**
 * The background class written inline in Background.h: the same wheel
 * scrolling as Background.cpp, but the far-side wrap compares against the
 * screen's extent instead of 0.
 */
module InlineBackground {
  import opened Geometry
  import opened Resources

  /**
   * One axis of the wrap: a coordinate at or below `-w` moves forward by the
   * tile extent `w`; then, on the value it leaves, one at or beyond the
   * screen's extent `screen` moves back by `w`.
   */
  function ScreenWrap(x: real, w: real, screen: real): (r: real)
    ensures r == x || r == x + w || r == x - w
    // nothing moves a coordinate strictly between -w and the screen's edge
    ensures -w < x < screen ==> r == x
    // on a screen of positive extent the forward wrap is never undone by the backward one
    ensures screen > 0.0 && x <= -w ==> r == x + w
    ensures -w < x && screen <= x ==> r == x - w
  {
    var a := if x <= -w then x + w else x;
    if a >= screen then a - w else a
  }

  class Background {
    const texturePath: Path
    const texture: Texture
    const scrollSpeed: real
    var position: Vec2

    /**
     * `Background::Background` of Background.h: the cached texture, at the
     * origin, scrolling at 100 pixels per wheel step unless told otherwise.
     */
    constructor (texturePath: Path, resources: ResourceManager, loaded: Texture, generated: nat, scrollSpeed: real := 100.0)
      modifies resources
      ensures this.texturePath == texturePath && this.scrollSpeed == scrollSpeed && position == Vec2(0.0, 0.0)
      ensures texturePath in resources.textures && texture == resources.textures[texturePath]
      ensures texturePath in old(resources.textures) ==> resources.textures == old(resources.textures)
      ensures texturePath !in old(resources.textures) ==> resources.textures == old(resources.textures)[texturePath := texture]
      ensures resources.sounds == old(resources.sounds)
    {
      var t := resources.GetTexture(texturePath, DefaultExtent, DefaultExtent, loaded, generated);
      this.texturePath := texturePath;
      this.scrollSpeed := scrollSpeed;
      texture := t;
      position := Vec2(0.0, 0.0);
    }

    /**
     * The inline `Update`: the wheel's movement times `scrollSpeed` is added
     * to the position, then each axis wraps against the texture's extent and
     * the screen's. Only the position changes; the frame time is unused.
     */
    method Update(deltaTime: real, screenWidth: int, screenHeight: int, scrollDelta: Vec2)
      modifies this
      ensures position.x == ScreenWrap(old(position.x) + scrollDelta.x * scrollSpeed, texture.width as real, screenWidth as real)
      ensures position.y == ScreenWrap(old(position.y) + scrollDelta.y * scrollSpeed, texture.height as real, screenHeight as real)
    {
      position := Vec2(position.x + scrollDelta.x * scrollSpeed, position.y + scrollDelta.y * scrollSpeed);
      if position.x <= -(texture.width as real) { position := position.(x := position.x + texture.width as real); }
      if position.x >= screenWidth as real { position := position.(x := position.x - texture.width as real); }
      if position.y <= -(texture.height as real) { position := position.(y := position.y + texture.height as real); }
      if position.y >= screenHeight as real { position := position.(y := position.y - texture.height as real); }
    }
  }
}

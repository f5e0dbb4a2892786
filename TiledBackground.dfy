/**
 * The scrolling background of Background.cpp: the mouse wheel moves it, and
 * its position is kept within one texture of the origin so that the drawn
 * tiles always cover the screen. The wheel reading becomes a parameter.
 */
module TiledBackground {
  import opened Geometry
  import opened Resources

  /**
   * One axis of the wrap: a coordinate at or below `-w` moves forward by the
   * tile extent `w`; then, on the value it leaves, one above 0 moves back by
   * `w`. The result differs from `x` by a whole tile at most, so the tiling
   * it draws is the same picture.
   */
  function Wrap(x: real, w: real): (r: real)
    ensures r == x || r == x + w || r == x - w
    // a coordinate already in the window (-w, 0] stays where it is
    ensures w > 0.0 && -w < x <= 0.0 ==> r == x
    // a coordinate less than one tile outside the window comes back into it
    ensures w > 0.0 && -2.0 * w < x <= w ==> -w < r <= 0.0
  {
    var a := if x <= -w then x + w else x;
    if a > 0.0 then a - w else a
  }

  class Background {
    const texturePath: Path
    const texture: Texture
    const scrollSpeed: real
    /** The texture's extent. */
    const size: Vec2
    var position: Vec2

    /** The window (-extent, 0] on both axes, which `Update` keeps the position in. */
    predicate InWindow()
      reads this
    {
      -(texture.width as real) < position.x <= 0.0 && -(texture.height as real) < position.y <= 0.0
    }

    /**
     * `Background::Background`: the texture comes from the cache (100 by 100
     * when it has to be generated) and `size` is its extent. The position is
     * not initialised by this constructor, so nothing is known of it.
     */
    constructor (texturePath: Path, resources: ResourceManager, scrollSpeed: real, loaded: Texture, generated: nat)
      modifies resources
      ensures this.texturePath == texturePath && this.scrollSpeed == scrollSpeed
      ensures texturePath in resources.textures && texture == resources.textures[texturePath]
      ensures texturePath in old(resources.textures) ==> resources.textures == old(resources.textures)
      ensures texturePath !in old(resources.textures) ==> resources.textures == old(resources.textures)[texturePath := texture]
      ensures size == Vec2(texture.width as real, texture.height as real)
      ensures resources.sounds == old(resources.sounds)
    {
      var t := resources.GetTexture(texturePath, DefaultExtent, DefaultExtent, loaded, generated);
      this.texturePath := texturePath;
      this.scrollSpeed := scrollSpeed;
      texture := t;
      size := Vec2(t.width as real, t.height as real);
    }

    /**
     * `Background::Update`: the wheel's movement times `scrollSpeed` is added
     * to the position, then each axis wraps against the texture's extent.
     * Only the position changes; the frame time and screen size are unused.
     */
    method Update(deltaTime: real, screenWidth: int, screenHeight: int, scrollDelta: Vec2)
      modifies this
      ensures position.x == Wrap(old(position.x) + scrollDelta.x * scrollSpeed, texture.width as real)
      ensures position.y == Wrap(old(position.y) + scrollDelta.y * scrollSpeed, texture.height as real)
      // a scroll of less than one tile per axis keeps the position in the window
      ensures texture.width > 0 && texture.height > 0 && old(InWindow())
        && -(texture.width as real) < scrollDelta.x * scrollSpeed < texture.width as real
        && -(texture.height as real) < scrollDelta.y * scrollSpeed < texture.height as real
        ==> InWindow()
    {
      position := Vec2(position.x + scrollDelta.x * scrollSpeed, position.y + scrollDelta.y * scrollSpeed);
      if position.x <= -(texture.width as real) { position := position.(x := position.x + texture.width as real); }
      if position.x > 0.0 { position := position.(x := position.x - texture.width as real); }
      if position.y <= -(texture.height as real) { position := position.(y := position.y + texture.height as real); }
      if position.y > 0.0 { position := position.(y := position.y - texture.height as real); }
    }
  }
}

/**
 * `ResourceManager` (ResourceManager.cpp, with the same code inline in
 * ResourceManager.h): get-or-insert caches of textures and sounds keyed by
 * path, the release of everything cached, and the binary format of a
 * resource key, a `size_t` length followed by the key's characters.
 *
 * Loading from disk is a foreign call: its outcome arrives as a parameter
 * (`loaded`, `onDisk`), and only what the cache does with it is modelled.
 * Strings are byte strings, as `std::string` is.
 */
module Resources {
  import opened Wrappers

  newtype byte = x: int | 0 <= x < 256

  /** A `std::string` viewed as its bytes. */
  type Path = seq<byte>

  /** raylib's `Texture2D` handle: 0 as `id` is a texture that failed to load. */
  datatype Texture = Texture(id: nat, width: int, height: int)

  /** raylib's `Sound` handle, which the model never looks inside. */
  datatype Sound = Sound(handle: nat)

  /** The default fallback extent of `GetTexture` in ResourceManager.h. */
  const DefaultExtent: int := 100

  /** `sizeof(size_t)` on the 64-bit targets the program is built for. */
  const SizeBytes: nat := 8

  /** `256^k`, the number of values `k` bytes can hold. */
  function Pow256(k: nat): (p: nat)
    ensures p >= 1
  {
    if k == 0 then 1 else 256 * Pow256(k - 1)
  }

  /** The number a byte sequence holds when read least significant byte first. */
  function Value(bs: seq<byte>): (n: nat)
    ensures n < Pow256(|bs|)
  {
    if bs == [] then 0 else bs[0] as nat + 256 * Value(bs[1..])
  }

  /**
   * The `k` bytes that hold `n` least significant byte first: the memory of a
   * `size_t` on a little-endian machine, `k` being its size.
   */
  function LittleEndian(n: nat, k: nat): (bs: seq<byte>)
    requires n < Pow256(k)
    ensures |bs| == k && Value(bs) == n
  {
    if k == 0 then [] else [(n % 256) as byte] + LittleEndian(n / 256, k - 1)
  }

  /** Reading bytes as a number and writing the number back gives the same bytes. */
  lemma {:induction false} LittleEndianValue(bs: seq<byte>)
    ensures LittleEndian(Value(bs), |bs|) == bs
  {
    if bs != [] {
      LittleEndianValue(bs[1..]);
      assert Value(bs) % 256 == bs[0] as nat && Value(bs) / 256 == Value(bs[1..]);
    }
  }

  /**
   * What `std::string(buffer)` copies out of a buffer: the bytes before the
   * first NUL, or all of them when there is none.
   */
  function UntilNul(s: seq<byte>): (r: seq<byte>)
    ensures |r| <= |s| && r == s[..|r|]
    ensures 0 !in r
    ensures |r| < |s| ==> s[|r|] == 0
  {
    if s == [] || s[0] == 0 then [] else [s[0]] + UntilNul(s[1..])
  }

  /** A byte string without NUL survives the copy whole. */
  lemma UntilNulFree(s: seq<byte>)
    requires 0 !in s
    ensures UntilNul(s) == s
  {
  }

  /** `UntilNul` is the one NUL-free prefix that ends at a NUL or at the end. */
  lemma {:induction false} UntilNulFirst(s: seq<byte>, i: nat)
    requires i <= |s| && 0 !in s[..i] && (i == |s| || s[i] == 0)
    ensures UntilNul(s) == s[..i]
  {
    if i > 0 {
      assert s[0] in s[..i];
      assert s[1..][..i - 1] == s[1..i];
      assert 0 !in s[1..][..i - 1] by {
        forall j | 0 <= j < i - 1 ensures s[1..][j] != 0 {
          assert s[1..][j] == s[..i][j + 1];
        }
      }
      UntilNulFirst(s[1..], i - 1);
    }
  }

  /** The bytes `SaveResourceKey` writes for `path`: its length as a `size_t`, then its bytes. */
  function EncodeKey(path: Path): (bs: seq<byte>)
    requires |path| < Pow256(SizeBytes)
    ensures |bs| == SizeBytes + |path|
  {
    LittleEndian(|path|, SizeBytes) + path
  }

  /** A key read back from a stream and the number of bytes reading it consumed. */
  datatype Loaded = Loaded(key: Path, consumed: nat)

  /**
   * What `LoadResourceKey` reads from the bytes `data` left in a stream: a
   * `size_t` length, then that many bytes, of which the key is the part
   * before the first NUL. A stream that ends early is an error.
   */
  function DecodeKey(data: seq<byte>): (r: Result<Loaded>)
    ensures r.Ok? <==> SizeBytes <= |data| && SizeBytes + Value(data[..SizeBytes]) <= |data|
    ensures r.Ok? ==> r.value.consumed == SizeBytes + Value(data[..SizeBytes])
    ensures r.Ok? ==> r.value.key == UntilNul(data[SizeBytes..r.value.consumed])
    ensures r.Err? ==> r.error == Truncated
  {
    if |data| < SizeBytes then Err(Truncated)
    else
      var length := Value(data[..SizeBytes]);
      if |data| - SizeBytes < length then Err(Truncated)
      else Ok(Loaded(UntilNul(data[SizeBytes..SizeBytes + length]), SizeBytes + length))
  }

  /**
   * Saving a key and loading it back from the same place consumes exactly
   * what was written and gives the key up to its first NUL, whatever follows
   * in the stream.
   */
  lemma KeyRoundTrip(path: Path, rest: seq<byte>)
    requires |path| < Pow256(SizeBytes)
    ensures DecodeKey(EncodeKey(path) + rest) == Ok(Loaded(UntilNul(path), SizeBytes + |path|))
  {
    var header := LittleEndian(|path|, SizeBytes);
    assert EncodeKey(path) + rest == header + path + rest;
    DecodeFields(header, path, rest);
  }

  /** A header holding the length of the bytes after it decodes to those bytes up to their first NUL. */
  lemma DecodeFields(header: seq<byte>, path: Path, rest: seq<byte>)
    requires |header| == SizeBytes && Value(header) == |path|
    ensures DecodeKey(header + path + rest) == Ok(Loaded(UntilNul(path), SizeBytes + |path|))
  {
    Fields(header, path, rest);
  }

  /** The two fields of a concatenation, cut out again. */
  lemma Fields(a: seq<byte>, b: seq<byte>, c: seq<byte>)
    ensures (a + b + c)[..|a|] == a && (a + b + c)[|a|..|a| + |b|] == b
  {
  }

  /** For a key without NUL, loading gives back exactly the saved key. */
  lemma KeyRoundTripExact(path: Path, rest: seq<byte>)
    requires |path| < Pow256(SizeBytes) && 0 !in path
    ensures DecodeKey(EncodeKey(path) + rest) == Ok(Loaded(path, SizeBytes + |path|))
  {
    KeyRoundTrip(path, rest);
    UntilNulFree(path);
  }

  /** A key with a NUL in it loads as the part before its first NUL, which is shorter. */
  lemma KeyRoundTripTruncates(path: Path, rest: seq<byte>)
    requires |path| < Pow256(SizeBytes) && 0 in path
    ensures var r := DecodeKey(EncodeKey(path) + rest);
      r.Ok? && |r.value.key| < |path| && path[|r.value.key|] == 0 && r.value.key == path[..|r.value.key|]
  {
    KeyRoundTrip(path, rest);
    assert path[..|path|] == path;
  }

  /** An output file stream: everything written so far. */
  class OutStream {
    var written: seq<byte>

    constructor ()
      ensures written == []
    {
      written := [];
    }

    /** `std::ofstream::write`. */
    method Write(bs: seq<byte>)
      modifies this
      ensures written == old(written) + bs
    {
      written := written + bs;
    }
  }

  /** An input file stream: the file's bytes and how far reading has got. */
  class InStream {
    const data: seq<byte>
    var pos: nat

    constructor (data: seq<byte>)
      ensures this.data == data && pos == 0
    {
      this.data := data;
      pos := 0;
    }

    /** `std::ifstream::read` of `n` bytes: fewer when the file ends first, and then it is at its end. */
    method Read(n: nat) returns (bs: seq<byte>)
      requires pos <= |data|
      modifies this
      ensures pos == (if old(pos) + n <= |data| then old(pos) + n else |data|)
      ensures bs == data[old(pos)..pos]
    {
      var end := if pos + n <= |data| then pos + n else |data|;
      bs := data[pos..end];
      pos := end;
    }
  }

  /** The order a release loop visits the entries of a cache, and the values it hands to the unload call. */
  method Release<V>(cache: map<Path, V>) returns (order: seq<Path>, released: seq<V>)
    ensures forall k :: k in order <==> k in cache
    ensures forall i, j :: 0 <= i < j < |order| ==> order[i] != order[j]
    ensures |released| == |order|
    ensures forall i :: 0 <= i < |order| ==> order[i] in cache && released[i] == cache[order[i]]
  {
    var rest := cache;
    order, released := [], [];
    while rest != map[]
      invariant forall k :: k in rest ==> k in cache && rest[k] == cache[k]
      invariant forall k :: k in cache <==> k in rest || k in order
      invariant forall k :: k in rest ==> k !in order
      invariant forall i, j :: 0 <= i < j < |order| ==> order[i] != order[j]
      invariant |released| == |order|
      invariant forall i :: 0 <= i < |order| ==> order[i] in cache && released[i] == cache[order[i]]
      decreases |rest.Keys|
    {
      var k :| k in rest;
      order, released := order + [k], released + [rest[k]];
      ghost var before := rest;
      rest := rest - {k};
      assert rest.Keys == before.Keys - {k};
    }
  }

  class ResourceManager {
    var textures: map<Path, Texture>
    var sounds: map<Path, Sound>
    /** The sound handed out for a path with no file behind it. */
    const defaultSound: Sound

    /** `ResourceManager::ResourceManager`: empty caches; `defaultSound` is what raylib made of an empty wave. */
    constructor (defaultSound: Sound)
      ensures textures == map[] && sounds == map[] && this.defaultSound == defaultSound
    {
      textures := map[];
      sounds := map[];
      this.defaultSound := defaultSound;
    }

    /**
     * `GetTexture`: on a hit, the cached texture, whatever the other
     * arguments; on a miss, the texture `loaded` from `path`, or, when that
     * failed (id 0), a generated `width` by `height` one whose handle is
     * `generated`, stored under `path` first. No entry is ever overwritten.
     */
    method GetTexture(path: Path, width: int, height: int, loaded: Texture, generated: nat) returns (texture: Texture)
      modifies this
      ensures path in old(textures) ==> textures == old(textures) && texture == old(textures)[path]
      ensures path !in old(textures) ==> textures == old(textures)[path := texture]
      ensures path !in old(textures) ==> texture == if loaded.id == 0 then Texture(generated, width, height) else loaded
      ensures path in textures && texture == textures[path]
      ensures forall k :: k in old(textures) ==> k in textures && textures[k] == old(textures)[k]
      ensures sounds == old(sounds)
    {
      if path !in textures {
        var t := loaded;
        if t.id == 0 {
          t := Texture(generated, width, height);
        }
        textures := textures[path := t];
      }
      texture := textures[path];
    }

    /**
     * `GetSound`: on a hit, the cached sound; on a miss, the sound `loaded`
     * from `path` when the file is `onDisk`, and otherwise `defaultSound`,
     * stored under `path` first, so that later calls return the same choice.
     */
    method GetSound(path: Path, onDisk: bool, loaded: Sound) returns (sound: Sound)
      modifies this
      ensures path in old(sounds) ==> sounds == old(sounds) && sound == old(sounds)[path]
      ensures path !in old(sounds) ==> sounds == old(sounds)[path := sound]
      ensures path !in old(sounds) ==> sound == if onDisk then loaded else defaultSound
      ensures path in sounds && sound == sounds[path]
      ensures forall k :: k in old(sounds) ==> k in sounds && sounds[k] == old(sounds)[k]
      ensures textures == old(textures)
    {
      if path !in sounds {
        if onDisk {
          sounds := sounds[path := loaded];
        } else {
          sounds := sounds[path := defaultSound];
        }
      }
      sound := sounds[path];
    }

    /** `SaveResourceKey`: the length's bytes, then the path's. */
    method SaveResourceKey(file: OutStream, path: Path)
      requires |path| < Pow256(SizeBytes)
      modifies file
      ensures file.written == old(file.written) + EncodeKey(path)
    {
      file.Write(LittleEndian(|path|, SizeBytes));
      file.Write(path);
    }

    /**
     * `LoadResourceKey`: the key `DecodeKey` finds at the stream's position,
     * which then moves past it. A stream too short for the length or for the
     * bytes it announces is reported as `Truncated` and left at its end.
     */
    method LoadResourceKey(file: InStream) returns (r: Result<Path>)
      requires file.pos <= |file.data|
      modifies file
      ensures var d := DecodeKey(file.data[old(file.pos)..]);
        match d
        case Ok(l) => r == Ok(l.key) && file.pos == old(file.pos) + l.consumed
        case Err(e) => r == Err(e) && file.pos == |file.data|
    {
      ghost var rest := file.data[file.pos..];
      var header := file.Read(SizeBytes);
      if |header| < SizeBytes {
        return Err(Truncated);
      }
      assert header == rest[..SizeBytes];
      var length := Value(header);
      var buffer := file.Read(length);
      if |buffer| < length {
        return Err(Truncated);
      }
      assert buffer == rest[SizeBytes..SizeBytes + length];
      // the copy into `std::string` stops at the first NUL, or at the terminator written after the bytes
      var i := 0;
      while i < |buffer| && buffer[i] != 0
        invariant i <= |buffer| && 0 !in buffer[..i]
      {
        assert buffer[..i + 1] == buffer[..i] + [buffer[i]];
        i := i + 1;
      }
      UntilNulFirst(buffer, i);
      r := Ok(buffer[..i]);
    }

    /**
     * `UnloadAll`: every cached texture, then every cached sound, goes to the
     * unload call once per entry, in the map's own order, and both caches end
     * empty. A sound cached under several paths, such as `defaultSound`, is
     * passed once per path.
     */
    method UnloadAll() returns (texturePaths: seq<Path>, unloadedTextures: seq<Texture>, soundPaths: seq<Path>, unloadedSounds: seq<Sound>)
      modifies this
      ensures textures == map[] && sounds == map[]
      ensures forall k :: k in texturePaths <==> k in old(textures)
      ensures forall i, j :: 0 <= i < j < |texturePaths| ==> texturePaths[i] != texturePaths[j]
      ensures |unloadedTextures| == |texturePaths|
      ensures forall i :: 0 <= i < |texturePaths| ==> texturePaths[i] in old(textures) && unloadedTextures[i] == old(textures)[texturePaths[i]]
      ensures forall k :: k in soundPaths <==> k in old(sounds)
      ensures forall i, j :: 0 <= i < j < |soundPaths| ==> soundPaths[i] != soundPaths[j]
      ensures |unloadedSounds| == |soundPaths|
      ensures forall i :: 0 <= i < |soundPaths| ==> soundPaths[i] in old(sounds) && unloadedSounds[i] == old(sounds)[soundPaths[i]]
    {
      texturePaths, unloadedTextures := Release(textures);
      soundPaths, unloadedSounds := Release(sounds);
      textures := map[];
      sounds := map[];
    }
  }
}

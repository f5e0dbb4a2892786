# SimpleGameloop core in Dafny

This project models the logic of the SimpleGameloop raylib demo and proves properties of the model. Coordinates and times are exact reals. The modelled parts are:

- **The two quadtrees.**
  - `FitQuadtree` models `Quadtree.h`. It keeps each object at the deepest node whose quadrant holds it strictly, splits lazily beyond five objects and retrieves along one path.
  - `OverlapQuadtree` models `Quadtree.cpp`. It stores an object at a node while the node has room, offers it to all four children afterwards, and filters queries by overlap.
  - Both keep their nodes in one arena, `QuadArena`. A node's four children are appended to the arena when it splits. `Forest` has the ancestor relation over the arena's ghost parent links.
- **The scene-node tree,** `SceneTree` (`SceneNode.cpp`). All nodes live in one arena indexed by number. Each node has an optional sprite, an optional parent and an ordered child list. A ghost rank per node shows that parent links have no cycle.
- **The motion rules.**
  - `PlayerMotion`: key-driven acceleration, integration, and the clamp-and-bounce edge check.
  - `PlatformMotion`: velocity snapping to plus or minus the expected velocity.
  - `TiledBackground` (`Background.cpp`) and `InlineBackground` (`Background.h`): the two wrap-around scrolling rules.
- **The resource manager,** `Resources`.
  - The texture and sound caches are get-or-insert maps.
  - The resource key file format is a `size_t` length followed by that many characters. It is modelled over bytes with an 8-byte little-endian length.
  - `UnloadAll` returns the order in which it releases the cached values.
- **The sprite factory,** `SpriteFactory`: the evenly spaced placement loop and the dispatch on the type name.

### Inputs that become parameters

- The texture and sound loaders become the `loaded` / `generated` / `onDisk` parameters of the cache methods.
- Key polling becomes a `Keys` value.
- The mouse wheel becomes `scrollDelta`.
- File streams become `OutStream` / `InStream` objects over byte sequences.
- The player's `PlaySound` becomes a returned count of bounces.
- A sprite's virtual `Update` and `Draw` become the calls returned by the scene-tree traversals.

### Assumptions

- A stored object's rectangle is taken as fixed while it is stored. Both trees call `GetBounds()` again whenever they use an object (Quadtree.h:53 and :67 when routing during a split; Quadtree.cpp:21 and :50 when filtering), so in the source an object that moved after insertion is judged by its new bounds; the model keeps the bounds it had when inserted.
- raylib's `CheckCollisionRecs` is not part of this model. It is assumed to be the strict axis-aligned overlap test (`Geometry.Overlaps`): rectangles that only share an edge do not collide.
- Each `SceneNode`'s `Sprite` is represented only by the position, rotation and size the scene graph reads.

### Bounds of a scene node

`SceneNode::GetBounds` puts the **top-left corner** of the rectangle at the node's global position (SceneNode.cpp:54-57); the rectangle is not centred on it.

## Model

| member | source | states |
|---|---|---|
| Geometry.OverlapsSymmetric | SimpleGameloop/Quadtree.cpp:23 | the assumed collision test does not depend on argument order |
| Geometry.OverlapsSelf | SimpleGameloop/Quadtree.cpp:50 | a rectangle collides with itself exactly when both extents are positive, so a zero-width object is never found by its own bounds |
| Geometry.Quadrants | SimpleGameloop/Quadtree.cpp:6-18 | the NW, NE, SW, SE split of both trees; that they tile the node, never overlap and catch every solid overlapping object is carried by `QuadrantsTile`, `QuadrantsDisjoint` and `QuadrantsCover` |
| Geometry.QuadrantsTile | SimpleGameloop/Quadtree.h:33-41 | a point lies in a node's closed rectangle iff it lies in one of its four half-size quadrants (they tile the parent) |
| Geometry.QuadrantsDisjoint | SimpleGameloop/Quadtree.h:33-41 | two different quadrants never strictly overlap |
| Geometry.QuadrantsCover | SimpleGameloop/Quadtree.cpp:30-39 | an object of positive extent that overlaps a node overlaps at least one of its quadrants |
| Geometry.MidlineSliver | SimpleGameloop/Quadtree.cpp:21-39 | a zero-width rectangle on the vertical midline overlaps the node but none of its quadrants, so once the node is divided such an object is passed down and stored nowhere |
| Forest.DescendsAbove | SimpleGameloop/Quadtree.h:33-41 | an ancestor always comes before its descendant in the arena |
| Forest.DescendsTrans | SimpleGameloop/Quadtree.h:33-41 | the ancestor relation is transitive |
| Forest.DescendsChain | SimpleGameloop/Quadtree.h:33-41 | two ancestors of a node are ancestors of one another (every node has one path to the root) |
| Forest.Siblings | SimpleGameloop/Quadtree.h:33-41 | below one child of a node there is nothing below a sibling of it |
| Forest.NewNodes | SimpleGameloop/Quadtree.h:37-40 | the four children of a split; that they are the next four arena slots, in quadrant order, pointing back to the parent, is carried by `QuadArena.SplitShape` |
| QuadArena.StoredAppend | SimpleGameloop/Quadtree.h:60 | pushing an object onto one node adds exactly that object to the tree's contents |
| QuadArena.StoredTakeOut | SimpleGameloop/Quadtree.h:70 | erasing one entry from a node removes exactly that object from the tree's contents |
| QuadArena.SplitShape | SimpleGameloop/Quadtree.h:33-41 | splitting a leaf keeps the arena well shaped: four children with the parent's quadrants, in slots 0..3, pointing back to it |
| QuadArena.ChangedAppend | SimpleGameloop/Quadtree.h:60 | a push onto node n changes nothing outside the subtree of n |
| QuadArena.ChangedDivide | SimpleGameloop/Quadtree.h:63 | a split of node n changes nothing outside the subtree of n |
| QuadArena.PassedDown | SimpleGameloop/Quadtree.h:55 | inserting into a child leaves the parent's objects and children as they were |
| FitQuadtree.GetIndex | SimpleGameloop/Quadtree.h:16-31 | the result is -1 exactly when the rectangle's closed extent touches or crosses a midline; otherwise it is the quadrant strictly left/right and above/below both midlines |
| FitQuadtree.Straddlers | SimpleGameloop/Quadtree.h:65-73 | the objects the redistribution loop keeps: only midline straddlers, a sub-multiset of the original |
| FitQuadtree.StraddlersAppend | SimpleGameloop/Quadtree.h:65-73 | the kept objects keep their original relative order |
| FitQuadtree.FitsQuadrant | SimpleGameloop/Quadtree.h:52-57 | an object filed under quadrant q lies within that quadrant's extent and is narrower than it |
| FitQuadtree.GaugeShrinks | SimpleGameloop/Quadtree.h:55 | descending into a quadrant lowers the termination measure |
| FitQuadtree.AppendKeeps | SimpleGameloop/Quadtree.h:60-62 | storing an admissible object keeps the tree invariant and adds it to the contents |
| FitQuadtree.DivideKeeps | SimpleGameloop/Quadtree.h:62-63 | splitting an overfull leaf keeps the invariant and the contents |
| FitQuadtree.TakeOutKeeps | SimpleGameloop/Quadtree.h:68-70 | moving an object out of the node during redistribution keeps the invariant; the contents lose exactly that object |
| FitQuadtree.StoredRoute | SimpleGameloop/Quadtree.h:67-69 | a non-straddling stored object fits into the child its index names |
| FitQuadtree.Settle | SimpleGameloop/Quadtree.h:62-73 | once only straddlers remain, every object held by a node with children has index -1 for it |
| FitQuadtree.RetrievedWithin | SimpleGameloop/Quadtree.h:77-88 | whatever `Retrieve` returns below a node is stored in that subtree |
| FitQuadtree.RoutedFound | SimpleGameloop/Quadtree.h:77-88 | every object held at a node on the rectangle's path from the root is retrieved |
| FitQuadtree.StoredFound | SimpleGameloop/Quadtree.h:51-88 | retrieving with the exact bounds an object was inserted with returns that object |
| FitQuadtree.Quadtree.constructor | SimpleGameloop/Quadtree.h:44 | a single empty leaf with the given bounds |
| FitQuadtree.Quadtree.Clear | SimpleGameloop/Quadtree.h:46-49 | afterwards the root keeps its bounds and has no objects and no children; the contents are empty |
| FitQuadtree.Quadtree.Split | SimpleGameloop/Quadtree.h:33-41 | the arena gains the node's four quadrants as children; contents unchanged |
| FitQuadtree.Quadtree.InsertAt | SimpleGameloop/Quadtree.h:51-58 | insertion below node n keeps the invariant, only changes the subtree of n, and adds exactly the object to the contents |
| FitQuadtree.Quadtree.Store | SimpleGameloop/Quadtree.h:60-75 | pushing onto the node and splitting when it exceeds five objects keeps the invariant and adds exactly the object |
| FitQuadtree.Quadtree.Redistribute | SimpleGameloop/Quadtree.h:65-73 | after the loop the node holds exactly the straddlers, in order; the rest moved to their children; contents unchanged |
| FitQuadtree.Quadtree.Relocate | SimpleGameloop/Quadtree.h:67-70 | one loop step: the object goes into its child and its entry is erased; contents unchanged |
| FitQuadtree.Quadtree.Insert | SimpleGameloop/Quadtree.h:51-75 | the contents grow by exactly the inserted object; the invariant holds |
| FitQuadtree.Quadtree.RetrieveAt | SimpleGameloop/Quadtree.h:77-88 | the child's results along the index path, followed by this level's objects, unfiltered |
| FitQuadtree.Quadtree.Retrieve | SimpleGameloop/Quadtree.h:77-88 | the result is drawn from the contents and includes every object held on the rectangle's path |
| OverlapQuadtree.Limit | SimpleGameloop/Quadtree.cpp:27 | the bound the `size_t` comparison applies (a negative capacity becomes 2^64 plus it); that no node ever holds more is the `Good(_, Limit(capacity))` invariant that the constructor establishes and `AppendKeeps`, `DivideKeeps` and `Insert` keep |
| OverlapQuadtree.KeptGrows | SimpleGameloop/Quadtree.cpp:27-39 | an object kept below a node stays kept as nodes only gain objects |
| OverlapQuadtree.AppendKeeps | SimpleGameloop/Quadtree.cpp:27-28 | storing at a node with room keeps the invariant (no node beyond capacity) and keeps the object |
| OverlapQuadtree.DivideKeeps | SimpleGameloop/Quadtree.cpp:6-18 | subdividing keeps the invariant, changes only the subtree, and the new children are empty leaves |
| OverlapQuadtree.Matches | SimpleGameloop/Quadtree.cpp:49-53 | this level's matches: exactly its objects that overlap the area |
| OverlapQuadtree.MatchesNext | SimpleGameloop/Quadtree.cpp:49-53 | one more object scanned extends the matches by that object exactly when it overlaps the area |
| OverlapQuadtree.QueriedSound | SimpleGameloop/Quadtree.cpp:42-68 | every object a query returns overlaps the area and is stored at a node the area reaches |
| OverlapQuadtree.QueriedComplete | SimpleGameloop/Quadtree.cpp:42-68 | every stored object that overlaps the area, at a node the area reaches, is returned |
| OverlapQuadtree.KeptFound | SimpleGameloop/Quadtree.cpp:20-68 | a kept solid object is found by querying its own bounds |
| OverlapQuadtree.KeptInChildrenMeans | SimpleGameloop/Quadtree.cpp:35-38 | `KeptInChildren(a, n, k, item)` holds exactly when each of the first k children that the object overlaps keeps it in its subtree |
| OverlapQuadtree.OfferInChildren | SimpleGameloop/Quadtree.cpp:35-38 | after child q is offered the object, children 0..q that it overlaps all keep it, since nodes only gain objects |
| OverlapQuadtree.OfferKeeps | SimpleGameloop/Quadtree.cpp:35-38 | offering to one child leaves this node's objects and the other children's subtrees alone |
| OverlapQuadtree.Quadtree.constructor | SimpleGameloop/Quadtree.cpp:3-4 | one empty, undivided leaf with the given bounds and capacity |
| OverlapQuadtree.Quadtree.Subdivide | SimpleGameloop/Quadtree.cpp:6-18 | `divided` is set and the four half-size quadrants NW, NE, SW, SE are appended as undivided leaves with the same capacity |
| OverlapQuadtree.Quadtree.InsertAt | SimpleGameloop/Quadtree.cpp:20-40 | a non-overlapping object changes nothing; a node with room stores it; otherwise the node is divided, keeps its own objects, and every child the solid object overlaps keeps it in its subtree; a solid overlapping object is kept at or below the node; nothing but copies of the object is added, and no node gains more than one entry |
| OverlapQuadtree.Quadtree.Spread | SimpleGameloop/Quadtree.cpp:30-39 | a full or divided node ends divided with its own objects unchanged, and every child a solid object overlaps keeps it (`KeptInChildren` of all four); nothing but copies of the object is added, and no node gains more than one entry |
| OverlapQuadtree.Quadtree.OfferAll | SimpleGameloop/Quadtree.cpp:35-38 | the four child calls in turn: each child a solid object overlaps keeps it in its subtree, this node's objects and children stay; nothing but copies of the object is added, and no node gains more than one entry |
| OverlapQuadtree.Quadtree.Offer | SimpleGameloop/Quadtree.cpp:35-38 | one child's insertion: child q keeps a solid object it overlaps, the earlier children that kept it still do, this node is unchanged and later children keep their measure; nothing but copies of the object is added, and no node gains more than one entry |
| OverlapQuadtree.Quadtree.Insert | SimpleGameloop/Quadtree.cpp:20-40 | nodes only gain objects, and every entry gained is the inserted object, at most one per node; a non-overlapping object is a no-op; a solid overlapping object is then found by querying its bounds |
| OverlapQuadtree.OnlyAddedTrans | SimpleGameloop/Quadtree.cpp:35-38 | two steps that each add only the object together add only the object |
| OverlapQuadtree.PushDivideOnlyAdded | SimpleGameloop/Quadtree.cpp:27-33 | the push adds only the object, and the subdivision adds only empty nodes |
| OverlapQuadtree.PushDivideOneMore | SimpleGameloop/Quadtree.cpp:27-33 | the push adds one entry to one node; the subdivision adds four empty leaves whose subtrees nothing has touched |
| OverlapQuadtree.OfferOneMore | SimpleGameloop/Quadtree.cpp:35-38 | after one child call every node still has at most one entry more than before the four calls, and the later children's subtrees, disjoint from this child's, remain untouched |
| OverlapQuadtree.Quadtree.QueryAt | SimpleGameloop/Quadtree.cpp:42-68 | this node's matches, then the NW, NE, SW, SE results, empty when the area misses the node |
| OverlapQuadtree.Quadtree.Query | SimpleGameloop/Quadtree.cpp:42-68 | empty when the area misses the root; an object is returned iff it overlaps the area and is stored at a node the area reaches |
| OverlapQuadtree.Quadtree.Clear | SimpleGameloop/Quadtree.cpp:70-86 | afterwards a single undivided root with its bounds and no objects |
| SceneTree.ValidOrdered | SimpleGameloop/SceneNode.cpp:10-13 | in a consistent arena every listed child ranks above its parent, so traversals end |
| SceneTree.UnderRank | SimpleGameloop/SceneNode.cpp:41-52 | climbing parent links only reaches lower ranks, so the chain ends |
| SceneTree.GlobalPosition | SimpleGameloop/SceneNode.cpp:41-47 | a root's global position is its own position |
| SceneTree.GlobalRotation | SimpleGameloop/SceneNode.cpp:49-52 | a root's global rotation is its own rotation |
| SceneTree.Bounds | SimpleGameloop/SceneNode.cpp:54-57 | top-left corner at the global position, width and height from the sprite, so it contains the global position rather than centring on it |
| SceneTree.AttachRanked | SimpleGameloop/SceneNode.cpp:10-13 | attaching a root below a node outside its subtree keeps the links acyclic |
| SceneTree.AttachLinked | SimpleGameloop/SceneNode.cpp:10-13 | attaching a node without a parent keeps parent and child links in agreement |
| SceneTree.ChainRank | SimpleGameloop/SceneNode.cpp:41-47 | along the parent chain up to the attached node, any ranking of the new links stays at or above that node's rank |
| SceneTree.AttachAncestorCycles | SimpleGameloop/SceneNode.cpp:10-13 | attaching a root below a node of its own subtree leaves links that no ranking orders, so the climb of `GetGlobalPosition` (SceneNode.cpp:41-47) would not end |
| SceneTree.AttachAttachedUnlinks | SimpleGameloop/SceneNode.cpp:10-13 | attaching a node that still has a parent breaks that agreement |
| SceneTree.AttachKeepsOthers | SimpleGameloop/SceneNode.cpp:41-52 | attaching changes no global position or rotation outside the attached subtree |
| SceneTree.AttachMovesSubtree | SimpleGameloop/SceneNode.cpp:41-52 | attaching offsets every node of the attached subtree by the new parent's global position and rotation |
| SceneTree.FirstIndex | SimpleGameloop/SceneNode.cpp:16-17 | the position of the first entry equal to the node |
| SceneTree.FirstIndexAt | SimpleGameloop/SceneNode.cpp:16-17 | an occurrence with none before it is the one the search finds |
| SceneTree.Erase | SimpleGameloop/SceneNode.cpp:23 | one entry removed, the others kept in order |
| SceneTree.NotListed | SimpleGameloop/SceneNode.cpp:10-13 | a node without a parent is no node's listed child |
| SceneTree.AttachDetachRoundTrip | SimpleGameloop/SceneNode.cpp:10-25 | detaching a node right after attaching it restores its parent link and the child list |
| SceneTree.DetachRanked | SimpleGameloop/SceneNode.cpp:22 | clearing a parent link keeps the links acyclic |
| SceneTree.DetachLinked | SimpleGameloop/SceneNode.cpp:20-24 | detaching a listed child keeps parent and child links in agreement |
| SceneTree.DetachKeepsOthers | SimpleGameloop/SceneNode.cpp:41-52 | detaching changes no global position or rotation outside the detached subtree |
| SceneTree.DetachMovesSubtree | SimpleGameloop/SceneNode.cpp:41-52 | the detached subtree loses exactly the old parent's global position and rotation |
| SceneTree.VisitSound | SimpleGameloop/SceneNode.cpp:31-39 | every node a traversal reaches lies in the subtree and has a sprite |
| SceneTree.VisitComplete | SimpleGameloop/SceneNode.cpp:31-39 | every node of the subtree that has a sprite is reached |
| SceneTree.VisitNext | SimpleGameloop/SceneNode.cpp:33 | each further child appends that child's whole traversal, in list order |
| SceneTree.UpdateCalls | SimpleGameloop/SceneNode.cpp:32 | each sprite update gets the frame time and a 0 by 0 screen |
| SceneTree.SceneGraph.constructor | SimpleGameloop/SceneNode.cpp:4-8 | an arena without nodes |
| SceneTree.SceneGraph.NewNode | SimpleGameloop/SceneNode.cpp:4-8 | a new node with the given sprite or none, no parent and no children; consistency is kept |
| SceneTree.SceneGraph.AttachChild | SimpleGameloop/SceneNode.cpp:10-13 | the child's parent becomes the node and the child is appended last, others in order; consistent when it was a root outside the child's subtree, broken links when it still had a parent, and no acyclic ranking at all when the node lies in the child's subtree |
| SceneTree.SceneGraph.DetachChild | SimpleGameloop/SceneNode.cpp:15-25 | when the node is not a child this is an error and nothing changes; otherwise exactly its first entry is removed, the others keep their order, its parent is cleared and it is returned; consistency is kept |
| SceneTree.SceneGraph.GetChildren | SimpleGameloop/SceneNode.cpp:27-29 | the children in list order, each naming the node as parent |
| SceneTree.Update | SimpleGameloop/SceneNode.cpp:31-34 | pre-order: the node's own sprite first, then each child's subtree in list order, each update with screen size 0 by 0 |
| SceneTree.Draw | SimpleGameloop/SceneNode.cpp:36-39 | the same pre-order as `Update` |
| PlayerMotion.Push | SimpleGameloop/Player.cpp:26-29 | a key pair gives -1, 0 or 1; both or neither held gives 0 |
| PlayerMotion.Thrust | SimpleGameloop/Player.cpp:26-29 | A/D drive x and W/S drive y |
| PlayerMotion.Confine | SimpleGameloop/Player.cpp:42-61 | per axis: nothing happens iff the box is inside; a low violation sets the centre to half and negates the velocity; a high violation sets it to the limit minus half and negates it; a box that fits ends inside; a box too wide that trips the low edge trips the high one too, and the velocity ends unchanged |
| PlayerMotion.Player.constructor | SimpleGameloop/Player.cpp:3-18 | at rest at the initial position |
| PlayerMotion.Player.Move | SimpleGameloop/Player.cpp:25-32 | the velocity changes by Acceleration·dt per held key, opposite keys cancelling; then the position advances by the new velocity·dt |
| PlayerMotion.Player.ConstrainToBounds | SimpleGameloop/Player.cpp:38-62 | each axis is confined independently; the bounce count is the number of checks that fired; a box that fits ends inside the screen |
| PlayerMotion.Player.Update | SimpleGameloop/Player.cpp:20-23 | `Move` followed by `ConstrainToBounds` |
| PlatformMotion.Snap | SimpleGameloop/Platform.cpp:22-26 | the expected velocity when the dot product is at least 0, its opposite otherwise, and the expected velocity when at rest |
| PlatformMotion.SquaredLength | SimpleGameloop/Platform.cpp:23 | a non-zero vector has a positive dot product with itself |
| PlatformMotion.SnapMagnitude | SimpleGameloop/Platform.cpp:25-26 | after an update the speed equals the expected speed |
| PlatformMotion.SnapIdempotent | SimpleGameloop/Platform.cpp:22-27 | a second update after the first changes nothing |
| PlatformMotion.Platform.constructor | SimpleGameloop/Platform.cpp:3-20 | unrotated, moving at the expected velocity |
| PlatformMotion.Platform.Update | SimpleGameloop/Platform.cpp:22-27 | only the velocity changes, to `Snap` of the old one |
| TiledBackground.Wrap | SimpleGameloop/Background.cpp:15-18 | the result differs from the input by at most one tile; a coordinate in the window (-w, 0] stays; one less than a tile outside comes back into the window |
| TiledBackground.Background.constructor | SimpleGameloop/Background.cpp:3-7 | the texture comes from the cache (get-or-insert) and `size` is its width and height |
| TiledBackground.Background.Update | SimpleGameloop/Background.cpp:9-19 | each axis adds scroll delta times speed and then wraps independently; a scroll of less than a tile keeps the position in the window |
| InlineBackground.ScreenWrap | SimpleGameloop/Background.h:27-30 | at most one adjustment per axis: add the tile at or below -w, subtract it at or beyond the screen edge, nothing in between |
| InlineBackground.Background.constructor | SimpleGameloop/Background.h:16-19 | the texture comes from the cache, the position is the origin, and the scroll speed defaults to 100 |
| InlineBackground.Background.Update | SimpleGameloop/Background.h:21-31 | each axis adds scroll delta times speed and then wraps against the texture size and the screen size |
| Resources.Value | SimpleGameloop/ResourceManager.cpp:33 | the number a little-endian byte sequence holds fits its width |
| Resources.LittleEndian | SimpleGameloop/ResourceManager.cpp:33 | the k bytes of a length, whose value is that length |
| Resources.LittleEndianValue | SimpleGameloop/ResourceManager.cpp:39 | encoding the value of k bytes gives back the bytes |
| Resources.UntilNul | SimpleGameloop/ResourceManager.cpp:42-43 | the longest NUL-free prefix, stopping at the first NUL |
| Resources.UntilNulFirst | SimpleGameloop/ResourceManager.cpp:42-43 | the prefix ends exactly at the first NUL |
| Resources.EncodeKey | SimpleGameloop/ResourceManager.cpp:31-35 | 8 length bytes followed by exactly the path |
| Resources.DecodeKey | SimpleGameloop/ResourceManager.cpp:37-46 | a key is read iff the length and that many bytes are present; it consumes 8 plus the length and keeps the characters before the first NUL |
| Resources.KeyRoundTrip | SimpleGameloop/ResourceManager.cpp:31-46 | loading what was saved consumes exactly its bytes and gives the path up to its first NUL |
| Resources.DecodeFields | SimpleGameloop/ResourceManager.cpp:37-46 | a length header followed by that many bytes reads back as those bytes up to the first NUL and consumes header and bytes |
| Resources.KeyRoundTripExact | SimpleGameloop/ResourceManager.h:42-57 | a NUL-free path loads back unchanged |
| Resources.KeyRoundTripTruncates | SimpleGameloop/ResourceManager.h:48-57 | a path with a NUL loads back as its strict prefix before the first NUL |
| Resources.OutStream.Write | SimpleGameloop/ResourceManager.cpp:33-34 | bytes are appended to the stream |
| Resources.InStream.Read | SimpleGameloop/ResourceManager.cpp:39-41 | up to n bytes are read from the current position |
| Resources.Release | SimpleGameloop/ResourceManager.cpp:49-52 | every cached value is released once, each under its own path |
| Resources.ResourceManager.constructor | SimpleGameloop/ResourceManager.cpp:3 | empty caches and the given default sound |
| Resources.ResourceManager.GetTexture | SimpleGameloop/ResourceManager.cpp:5-21 | a hit returns the cached texture and changes nothing; a miss stores the loaded texture, or a generated one of the requested size when loading failed; entries are never overwritten |
| Resources.ResourceManager.GetSound | SimpleGameloop/ResourceManager.cpp:23-29 | a hit returns the cached sound; a miss stores the loaded sound, or the default sound when the file is absent; entries are never overwritten |
| Resources.ResourceManager.SaveResourceKey | SimpleGameloop/ResourceManager.h:42-46 | the stream gains exactly the encoded key |
| Resources.ResourceManager.LoadResourceKey | SimpleGameloop/ResourceManager.h:48-57 | the key decoded from the remaining bytes, with the stream advanced by the bytes consumed; a truncated stream is an error |
| Resources.ResourceManager.UnloadAll | SimpleGameloop/ResourceManager.cpp:48-53 | every cached texture and sound is released once and both caches end empty |
| SpriteFactory.Made | SimpleGameloop/SpriteFactory.h:29-48 | "Player" gives a circular 180×180 player, "Wall" a rectangular 180×180 wall, "Background" a background, any other name nothing |
| SpriteFactory.SlotInside | SimpleGameloop/SpriteFactory.h:19-27 | with positive extents every slot lies strictly inside the boundaries |
| SpriteFactory.SlotIncreasing | SimpleGameloop/SpriteFactory.h:19-27 | both coordinates strictly increase with the index |
| SpriteFactory.SlotFrom | SimpleGameloop/SpriteFactory.h:20-27 | the corner plus (i+1) spacings, with the spacings computed before the loop, is slot i |
| SpriteFactory.CreateSprites | SimpleGameloop/SpriteFactory.h:11-51 | exactly `quantity` entries (none for a negative quantity), entry i made at slot i = corner plus (i+1)/(quantity+1) of the extent |

## Left out

- Floating point: all arithmetic is exact, so the bounds, idempotence and tiling claims hold exactly only in the model.
- Rendering: every `Draw` body, `Quadtree::DrawDebug`, the texture tiling loops and the raylib drawing calls have no behaviour to state. `SceneNode::Draw` is kept only as its traversal order.
- Input, window, audio, timing and the main loop: input becomes parameters; `PlaySound` becomes a count.
- `Player::Move`'s rotation through `atan2f` is transcendental floating point. The model's `Player` has no rotation field.
- Binary save and load of sprites, scene nodes and the game state are raw memory dumps; only the resource key format is modelled.
- `GameState`, `Wall`, `TextureManager.h` and `Sprite.cpp` are not part of this model.
- Shared-pointer ownership, reference counting and the destructors are not modelled. The quadtree's child pointers and the scene node's parent pointer become arena indices.
- FitQuadtree.Quadtree.Insert: requires the object's horizontal extent to lie inside the root and its width to be at least a ghost `minExtent`. `Quadtree.h` neither checks these nor limits the depth, and without them a tiny object could in principle be split down without end.
- OverlapQuadtree.Quadtree.constructor: requires a capacity other than 0. With capacity 0 the first overlapping insertion subdivides and recurses forever.
- OverlapQuadtree.Quadtree.Insert: promises that an object is found by its own bounds only for objects of positive extent. A zero-width object lying on a midline of a divided node is stored nowhere (`Geometry.MidlineSliver`).
- OverlapQuadtree.Quadtree.Clear and FitQuadtree.Quadtree.Clear: the recursive release of the children is collapsed into resetting the arena to its root.
- Resources.EncodeKey: models `size_t` as 8 little-endian bytes and requires the path length to fit in them.
- Resources.ResourceManager.LoadResourceKey: on a stream shorter than the length prefix or the characters, the source leaves the result unspecified. The model reports `Truncated` and stops the stream at its end.
- Resources.ResourceManager.UnloadAll: the release order of a `std::unordered_map` is unspecified, so the model only states that each entry is released once. Unloading the shared `defaultSound` once per path is modelled as one release entry per path.
- TiledBackground.Background.constructor: `Background.cpp` leaves `position` uninitialised, so the model states nothing about it.
- SpriteFactory.CreateSprites: the model's `quantity` is an unbounded integer, so the signed `int` overflow of `quantity + 1` at SpriteFactory.h:20-21 when `quantity` is `INT_MAX` (undefined behaviour in the source) is not modelled.
- SpriteFactory.Made: all three branches call `SceneNode(sprite, resourceManager)`, which SceneNode.h:16-17 does not declare; the model assumes the one-argument `SceneNode(sprite)`. The "Background" branch also calls a `Background` constructor that neither `Background.cpp` nor `Background.h` declares, so the entry only records that a background was made. The sprite constructors' texture and sound loading is not modelled.
- SceneTree.SceneGraph.AttachChild: the source makes no checks. Attaching a node that already has a parent breaks the link agreement, and attaching a root below a node of its own subtree (itself included) closes a cycle; the model states these two outcomes and the consistent one instead of requiring against them. It states nothing about the child-list agreement after a cycle is closed, nor about attaching into an arena that is already inconsistent.
- SceneTree.Update and SceneTree.Draw: a sprite's own `Update` and `Draw` are virtual calls into code outside this model. They are recorded as calls instead of being executed, so the traversals work on a fixed snapshot of the arena.
- SceneTree.GlobalPosition and SceneTree.GlobalRotation: these require a sprite on every node of the parent chain, because the source dereferences the sprite unconditionally.

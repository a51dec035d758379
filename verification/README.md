# Map loading and component hydration of brainless-raider, in Dafny

brainless-raider is a Bevy game whose levels are drawn in the Tiled map editor. This
project models the core that turns Tiled's files into game data:

- the three asset loaders:
  - `MapLoader` reads a `.tmx` map into the floor grid, the objects of its object group and the tileset to load.
  - `SpriteSheetLoader` reads a `.tsx` tileset into its tile width, column count and image.
  - `TemplateLoader` reads a `.tx` object template into its tileset, sprite index and properties.
- the typed custom properties (`ObjectProperty`) those loaders decode;
- `local_path_to_project_path`, which resolves a path written in one asset file against that file's own path;
- `while_loading`, the system that switches `MapLoadState` from `Loading` to `Done` once every asset a stored map needs is stored;
- the `ComponentHydrators` registry, which maps component names to callbacks, and the property lookups with a default value that those callbacks use.

The modules and what they hold:

- `Wrappers`: `Option` and `Result`, with first-match search.
- `Strings`: Rust's `split` and `retain`.
- `Numbers`: Rust's `str::parse` for `u8`, `u16`, `u32`, `usize`, `i64`, `bool` and `f64`.
- `Xml`: an abstract element tree with preorder `descendants().find` and `children()`.
- `PathResolver`: the path resolver.
- `MapRecords`: the records the loaders produce.
- `Properties`: property decoding.
- `Grid`: the floor grid.
- `Assets`: a `LoadContext` class whose `Load` logs each asset request and returns a handle naming the requested path.
- `MapLoader`, `SpritesheetLoader` and `TemplateLoader`: the three loaders.
- `Readiness`: `while_loading` and `MapLoadState`.
- `HydrateComponents`: the registry and the property lookups.

How the loaders are modelled:

- Each loader is a function on a parsed document, say `ParseMap`.
- Beside it, a function lists the loads it issues, say `MapRequests`.
- A method walks the document the way the source does and issues its loads through a `LoadContext`.
- The method's contract ties its result to the function and ties the new request log to the old log plus the listed loads.

Every `expect` of the source becomes an `Err` carrying the reason. Each such error stands for a panic of the loading task.

## Model

All sources are `src/map_loader.rs` unless they say `src/hydrate_components.rs`.

| member | source | states |
|---|---|---|
| PathResolver.LocalPathToProjectPath | src/map_loader.rs:349-379 | The loops compute the resolver as written. The source path split on `/`, minus its file name, is the directory stack. Each `..` pops the stack. Any other segment is appended verbatim when it contains a dot, else with a `/`. The leftover directories are then prepended one at a time. |
| PathResolver.Pop | src/map_loader.rs:356 | `pop` drops the last entry and leaves an empty stack empty. |
| PathResolver.WalkClosedForm | src/map_loader.rs:360-372 | Each `..` removes exactly one trailing source directory, or nothing once the stack is empty. It never alters the remainder built so far. The other segments are appended in order. |
| PathResolver.PrependEachReverses | src/map_loader.rs:374-376 | The final loop puts the leftover directories in front of the remainder in reverse order. |
| PathResolver.ResolutionClosedForm | src/map_loader.rs:349-379 | Both resolvers in closed form: the source directories minus one per `..`, then the rendered segments. The as-written resolver has those directories reversed. |
| PathResolver.SourceDirsOfPath | src/map_loader.rs:350-356 | The directory stack of `d1/…/dn/file` is `d1 … dn`. |
| PathResolver.RenderedDirectories | src/map_loader.rs:366-371 | Segments without a dot render as `dir/` each and never walk up. |
| PathResolver.AsWrittenAgreesWithOneDirectoryLeft | src/map_loader.rs:374-376 | With at most one directory left over, the resolver as written and the corrected one give the same path. |
| PathResolver.DocCommentExample | src/map_loader.rs:345-348 | `../../sprites.tsx` from `res/maps/tutorial/0.tmx` is `res/sprites.tsx`, for both resolvers. |
| PathResolver.ProjectPathResolvesRelative | src/map_loader.rs:349-379 | A path of `k` `..` segments, then directories, then a file name, from `d1/…/dn/file`, resolves to `d1/…/d(n-k)/` followed by the rest of the path. The as-written resolver gives those directories in reverse. |
| PathResolver.SiblingResolution | src/map_loader.rs:366-376 | A file name alone resolves into the referencing file's directory. The as-written resolver reverses that directory chain. |
| PathResolver.AsWrittenReversesDirectories | src/map_loader.rs:374-376 | As written, `sprites.tsx` from `res/maps/tutorial/0.tmx` resolves to `tutorial/maps/res/sprites.tsx`. |
| PathResolver.ProjectPathKeepsDirectoryOrder | src/map_loader.rs:374-376 | The corrected resolver gives `res/maps/tutorial/sprites.tsx` for the same input. |
| Strings.Split | src/map_loader.rs:95 | `split(',')` yields at least one piece, and no piece holds the separator. |
| Strings.JoinSplit | src/map_loader.rs:95 | Splitting loses nothing: joining the pieces with the separator gives the text back. |
| Strings.SplitJoin | src/map_loader.rs:95 | Splitting separator-free pieces joined by the separator gives the pieces back. |
| Strings.StripWhitespace | src/map_loader.rs:94 | `retain` leaves no whitespace and never lengthens the text. |
| Strings.StripConcat | src/map_loader.rs:94 | Stripping distributes over concatenation, so each character is kept or dropped on its own. |
| Strings.StripNoWhitespace | src/map_loader.rs:94 | Text without whitespace is kept as it is. |
| Numbers.ParseUnsigned | src/map_loader.rs:103 | A text is accepted exactly when it is an optional `+` followed by one or more ASCII digits whose value lies below the type's limit, and the result is that value. So `256` is refused as a `u8`, `+0` is accepted and `-0` is refused. |
| Numbers.ParseUnsignedRoundTrip | src/map_loader.rs:103 | Every value of an unsigned type parses back from its decimal spelling. |
| Numbers.UnsignedRefusesMinus | src/map_loader.rs:155 | Text with a leading minus is refused by the unsigned parsers, even `-0`. |
| Numbers.ParseI64 | src/map_loader.rs:136 | `parse::<i64>` accepts a signed decimal exactly when it is within the `i64` range, and then yields its value. |
| Numbers.ParseI64RoundTrip | src/map_loader.rs:136 | Every `i64` parses back from its decimal spelling. |
| Numbers.ParseBool | src/map_loader.rs:124 | `parse::<bool>` accepts exactly `true` and `false`. |
| Numbers.ParseF64RoundTrip | src/map_loader.rs:130 | Every finite, infinite or NaN value parses back from its spelling in the `f64` literal syntax. |
| Wrappers.Need | src/map_loader.rs:87 | `expect` gives the value when there is one, else the given error. |
| Wrappers.FirstMatchAppend | src/hydrate_components.rs:52-55 | `find` over two sequences in a row looks in the second only when the first has no match. |
| Xml.Attribute | src/map_loader.rs:88 | `attribute(name)` is present exactly when the element carries it, and then holds its value. |
| Xml.FindDescendantIsFirstInPreorder | src/map_loader.rs:86 | `descendants().find(tag)` returns the first node carrying the tag in the preorder walk, which starts at the node itself. |
| Xml.FindDescendantFound | src/map_loader.rs:86 | The search finds only nodes that carry the tag and lie in the subtree. It finds nothing exactly when no such node exists. |
| Xml.Elements | src/map_loader.rs:110-113 | The element children of a node list are exactly the list's elements: each one is an element of the list, each element of the list is among them, and there are no more of them than nodes. |
| Xml.ElementsAppend | src/map_loader.rs:110-113 | Filtering the children of two lists joined is filtering each list and joining the results, so the loop keeps document order. |
| Xml.ElementsOfOne | src/map_loader.rs:111-113 | A single child is kept exactly when it is an element. |
| Xml.CollectElementsInOrder | src/map_loader.rs:110-160 | A loop over `children()` that skips non-elements succeeds exactly when every element child decodes. It then yields one value per element child, in document order. |
| Xml.CollectElementsStopsAtFailure | src/map_loader.rs:110-160 | The first failing child ends the loop with that child's error. |
| Properties.ParseValue | src/map_loader.rs:123-143 | A value parsed for a type tag is of the variant the tag names. |
| Properties.DecodeProperty | src/map_loader.rs:122-147 | A decoded property's variant is the one its `type` attribute names. `color` is always `WHITE`. `file` and `string` hold the `value` text verbatim. Every other variant is the `value` text read by that type's parser (`bool`, `f64`, `i64` or `u32`). |
| Properties.DecodePropertyFailures | src/map_loader.rs:122-147 | These are fatal, and nothing else is: a missing `type`, an unknown type, a missing `value` where one is read, and a `value` the type's parser refuses. |
| Properties.StrictParsers | src/map_loader.rs:123-140 | `bool`, `int` and `object` accept exactly what Rust's `bool`, `i64` and `u32` parsers accept. |
| Properties.ColorIgnoresValue | src/map_loader.rs:126-128 | A `color` property is `WHITE` whatever its `value` says, even when it has no `value`. |
| Properties.ValueRoundTrip | src/map_loader.rs:122-143 | Every variant but colour is written with a type name whose `value` is read, and its value text reads back through that type's parser. |
| Properties.DecodeEncodeProperty | src/map_loader.rs:122-143 | Every property reads back from the element the editor writes for it, a colour reading back as `WHITE`. |
| Properties.DecodeProperties | src/map_loader.rs:116-152 | The property loop yields the closed-form property list: no `properties` element gives none; otherwise the element children are decoded in order up to the first failure. |
| Properties.PropertiesInDocumentOrder | src/map_loader.rs:117-151 | The property list decodes exactly when every `property` element does. It then holds one property per element, in document order. |
| Properties.DecodeEncodeProperties | src/map_loader.rs:119-149 | A written list of properties reads back in order. |
| Grid.Tokens | src/map_loader.rs:94-95 | Stripping and splitting always yield at least one token. |
| Grid.DecodeGrid | src/map_loader.rs:100-105 | The write loop over a zeroed buffer of `n` cells yields the closed-form grid. A token is parsed before its cell is indexed, so a bad token among the first `n + 1` is reported ahead of the overflow. |
| Grid.GridCells | src/map_loader.rs:100-105 | The grid decodes exactly when every token is a `u8` and there are at most `n` tokens. It then has `n` cells, cell `i` holds token `i`, and the cells after the tokens stay 0. |
| Grid.TooManyTokens | src/map_loader.rs:102-104 | More tokens than cells is an index-out-of-bounds failure. |
| Grid.TrailingCommaFails | src/map_loader.rs:94-103 | A `data` text ending in a comma never decodes, because the empty last token is not a `u8`. |
| Grid.GridRoundTrip | src/map_loader.rs:93-105 | A grid written as comma-separated decimals reads back cell for cell. |
| Grid.WhitespaceIgnored | src/map_loader.rs:94 | Blank characters anywhere in the `data` text change no token. |
| MapLoader.PixelToTileTruncates | src/map_loader.rs:157-158 | For a positive pixel value and tile width, the tile is the truncated quotient: `t * w <= px < (t + 1) * w`, exact in decimal. The tile saturates at the largest `u16` exactly when the quotient reaches it. |
| MapLoader.SaturatedQuotient | src/map_loader.rs:157-158 | The quotient reaches the `u16` saturation point exactly when the numerator reaches that many denominators. |
| MapLoader.WholePixelPlacement | src/map_loader.rs:157-158 | A whole pixel offset lands in the tile that contains it. |
| MapLoader.ParseWholePixels | src/map_loader.rs:157 | The decimal spelling of a whole pixel count parses to that count. |
| MapLoader.PlacementExample | src/map_loader.rs:157-158 | 48 pixels on 16-pixel tiles is tile 3. |
| MapLoader.DecodedObjectRequestedItsTemplate | src/map_loader.rs:154-156 | A decoded object has issued exactly one load, for its own template. |
| MapLoader.LoadObject | src/map_loader.rs:114-160 | One object: properties, `id`, `template` (loaded), `x` and `y`, in source order. The result is the object's decoding. The log grows by its template load if the object gets that far, with the template path resolved as the source resolves it, directories reversed. |
| MapLoader.LoadChild | src/map_loader.rs:110-160 | One pass of the object loop: the objects decoded so far grow by this child's decoding, and the log by its template load. A non-element changes neither. |
| MapLoader.LoadObjects | src/map_loader.rs:108-161 | The object loop yields the element children of the object group decoded in order, stopping at the first failure. The log grows by the template loads issued until then. |
| MapLoader.ObjectRequestsStopAtFailure | src/map_loader.rs:110-160 | No load is issued after the first object that fails. |
| MapLoader.ObjectRequestsOnSuccess | src/map_loader.rs:154-156 | When every object decodes, the loads are the objects' templates, one per object and in order. |
| MapLoader.ReadMapPrelude | src/map_loader.rs:84-109 | The map's reads before the objects come in source order, and the result is their closed form: the map's `tilewidth`, `layer`, `data` text, `width`, `height`, the `width * height` overflow check, the grid and `objectgroup`. |
| MapLoader.LoadMap | src/map_loader.rs:84-172 | `MapLoader::load` on a parsed document yields the closed-form map. The log grows by the template loads, then the tileset load, each resolved by the as-written resolver. |
| MapLoader.LoadAfterPrelude | src/map_loader.rs:108-171 | Once the reads before the objects have succeeded, the object loop and then the `tileset` `source`. The result is the rest of the closed-form map, and the log grows by the template loads, then the tileset load, resolved as written. |
| MapLoader.MapRequestsOnSuccess | src/map_loader.rs:154-171 | A loaded map issued one template load per object, in object order, and then its tileset load. Every handle in the map names one of those loads. |
| MapLoader.MissingObjectGroupFatal | src/map_loader.rs:109 | A map without an `objectgroup` fails to load and issues no load at all. |
| MapLoader.MissingTilesetFatal | src/map_loader.rs:164 | A map without a `tileset` fails to load. It issues no tileset load, only the template loads of its objects, and when those objects all decode the error is the missing `tileset`. |
| MapLoader.MapGridSize | src/map_loader.rs:100 | A loaded map's grid has `width * height` cells. |
| MapLoader.MapTileWidth | src/map_loader.rs:84-89 | Objects are placed with the `map` element's `tilewidth`, not the tileset's. |
| MapLoader.MapObjectsInOrder | src/map_loader.rs:108-161 | A loaded map has one object per element child of the object group, in document order, each decoded with the map's tile width. |
| MapLoader.ObjectPlacement | src/map_loader.rs:157-158 | A decoded object's `x` and `y` are its `x` and `y` pixel attributes, parsed as `f64`, divided by the tile width and saturated into `u16`. |
| Assets.LoadContext.Load | src/map_loader.rs:156 | `load` appends the path to the request log and returns the handle for that path. |
| SpritesheetLoader.LoadSpritesheet | src/map_loader.rs:209-221 | `SpriteSheetLoader::load` yields the closed-form tileset: the first `tileset`, its `tilewidth` as `u8` and `columns` as `u32`, then the `source` of the first `image` inside it. The image is loaded last, and only on success, at the path the as-written resolver gives. |
| SpritesheetLoader.SpritesheetRoundTrip | src/map_loader.rs:210-220 | Every tile width, column count and image path reads back from the tileset document the editor writes, with the image resolved against the tileset's path by the as-written resolver. |
| SpritesheetLoader.MissingElementsFatal | src/map_loader.rs:210-216 | A tileset document without a `tileset` element, or whose tileset has no `image`, fails to load and issues no load. |
| SpritesheetLoader.WideTilesRefused | src/map_loader.rs:212 | A tile width over 255 is refused, and nothing is loaded. |
| TemplateLoader.LoadTemplate | src/map_loader.rs:256-310 | `TemplateLoader::load` yields the closed-form template: the tileset `source` (resolved first, by the as-written resolver), the first `object`'s `gid` as `u32`, and the first `properties` element's list. The tileset is loaded last, and only on success. |
| TemplateLoader.MissingElementsFatal | src/map_loader.rs:259-262 | A template without a `tileset` element, or without an `object` element, fails to load and issues no load. |
| TemplateLoader.TemplateRoundTrip | src/map_loader.rs:259-310 | Every template reads back from the document the editor writes: the tileset resolved against the template's path by the as-written resolver, the sprite index, and the properties in order. |
| Readiness.ObjectsReady | src/map_loader.rs:426-449 | The object loop returns early exactly when some object's template, or that template's tileset, is not stored. |
| Readiness.WhileLoading | src/map_loader.rs:398-455 | `while_loading` reaches `next_state.set(Done)` exactly when, for every stored map, its tileset is stored and every object's template and that template's tileset are stored. Images are not required. |
| Readiness.Step | src/map_loader.rs:394 | The system runs only in `Loading`. The state is `Done` after a frame exactly when it was `Done` or the frame found everything ready. |
| Readiness.MapLoadTracker.constructor | src/map_loader.rs:458-463 | The state starts at its default, `Loading`. |
| Readiness.MapLoadTracker.Tick | src/map_loader.rs:394 | One frame moves the state as `Step` says. |
| Readiness.DoneIsFinal | src/map_loader.rs:394 | `Done` is never left. |
| Readiness.RunEndsWhenReady | src/map_loader.rs:394-455 | Starting in `Loading`, a run of frames ends in `Done` exactly when some frame found every stored map ready. |
| Readiness.NoMapsIsReady | src/map_loader.rs:405-454 | With no map stored, the loop is empty and the first frame sets `Done`. |
| Readiness.ImagesIrrelevant | src/map_loader.rs:418-423 | Readiness does not depend on which images are stored. |
| Readiness.ReadinessMonotone | src/map_loader.rs:405-454 | Storing more tilesets and templates never undoes readiness. |
| HydrateComponents.ComponentHydrators.constructor | src/hydrate_components.rs:12-16 | `new` starts with no hydrator. |
| HydrateComponents.ComponentHydrators.RegisterHydrator | src/hydrate_components.rs:18-25 | `register_hydrator` maps the name to the callback, replaces an earlier callback of that name, and leaves every other name as it was. |
| HydrateComponents.ComponentHydrators.HydrateEntity | src/hydrate_components.rs:27-44 | A callback is invoked exactly when the name is registered, and it is the one registered under that name. The registry is unchanged. |
| HydrateComponents.RegistryScenario | src/hydrate_components.rs:12-44 | A new registry invokes nothing. Re-registering a name replaces its callback, other names keep theirs, and an unknown name invokes nothing. |
| HydrateComponents.FindPropertyIsFirst | src/hydrate_components.rs:52-55 | `find` returns the first property with the name, or nothing when no property has it. |
| HydrateComponents.PropertyOrDefaultS | src/hydrate_components.rs:47-63 | Returns the string slot of the first property with the name, or the default when none has it. |
| HydrateComponents.PropertyOrDefaultI | src/hydrate_components.rs:65-81 | Returns the integer slot of the first property with the name, or the default. |
| HydrateComponents.PropertyOrDefaultF | src/hydrate_components.rs:83-99 | Returns the float slot of the first property with the name, or the default. |
| HydrateComponents.PropertyOrDefaultC | src/hydrate_components.rs:101-117 | Returns the colour slot of the first property with the name, or the default. |
| HydrateComponents.PropertyOrDefaultB | src/hydrate_components.rs:119-135 | Returns the boolean slot of the first property with the name, or the default. |
| HydrateComponents.LaterPropertiesIgnored | src/hydrate_components.rs:52-55 | Once a property with the name exists, appending more properties changes none of the lookups. |

## Left out

- Reading the file's bytes asynchronously, the UTF-8 check and XML lexing (`src/map_loader.rs:72-83` and the same lines in the other two loaders). A loader takes an already parsed element tree.
- A document that is not well-formed XML is not modelled.
- The document root is the root node. roxmltree's root has an empty tag, so it never matches the non-empty tags the loaders look for.
- Xml.Node: the tree has only element and text nodes; comments, processing instructions and namespaces are not modelled. So two source behaviours are missing:
  - a comment as the first child of `data` makes `text()` return `None`, and the loader panics;
  - a tag with a namespace prefix never matches the plain names the loaders look for, such as `map`.
- `f64` rounding: a pixel value or float property is kept as the exact decimal it spells.
  - Coordinates are divided exactly and then truncated.
- MapLoader.PixelToTile: IEEE 754 rounding of the parsed double and of the quotient is not modelled. This changes a tile in two cases:
  - the exact quotient lies within rounding error of a whole number;
  - the tile width is 0 and the value is positive but so small that it parses to 0.0, for example `1e-400`. The source then divides 0.0 by 0.0, gets NaN and places the object at 0. The model places it at 65535.
- MapLoader.PixelToTile: an extremely large finite value that the parser would round to infinity is treated as the huge finite number it spells. It saturates to the same tile either way.
- `Color`: only `WHITE` is modelled, with its four channels as reals. The loaders never read a colour's value.
- MapLoader.ReadMapPrelude: `vec![0; w * h]` fails in two ways, and both are reported as `SizeOverflow`:
  - `width * height` overflows `usize`, which panics in a debug build;
  - `width * height` is above `isize::MAX`, which panics with a capacity overflow.
  - The wrapped product of a release build is not modelled. An allocation that is within `isize::MAX` but larger than the memory available is not modelled either.
- The Bevy asset server:
  - `load` is a logged request that returns a handle naming the requested path. Reference counting and background loading are not modelled.
  - The asset store is a snapshot of maps from handles to records, passed to each frame.
  - The asset path's source and label are not modelled. Only the path text is used.
- Handles: `Handle(path)` stands for Bevy's handle. Two loads of the same path share one handle, as in Bevy.
- `println!` logging ("loading...", "loaded!", the unknown-type message, the missing-hydrator message) is not modelled. An unknown property type (`todo!()`) is the `UnsupportedPropertyType` error.
- `MapLoaderPlugin::build`: asset and loader registration and state scheduling are not modelled, except the `run_if(in_state(Loading))` guard. That guard is `Step`. A state set during a frame counts from the next frame.
- Hydrator callbacks, `EntityCommands` and the components they add: a callback is an opaque number, and invoking it is reported as that number.
- The hydration lookups read `name`, `value_s`, `value_i`, `value_f`, `value_c` and `value_b` on each property. The `ObjectProperty` enum of `src/map_loader.rs:319-341` has no such fields, so a property here is a `NamedProperty` record with one slot per type.
- `ComponentHydrators` is modelled as a mutable class. `register_hydrator` takes and returns the registry by value, and builder chaining is not modelled.
- `src/scene.rs` is not part of this model: entity spawning, the camera, and the `f32` transforms fed by the loaded data.
- Readiness.WhileLoading: the `None` arm of `map_assets.get(asset_id)` cannot be taken for an id the iteration just produced, so it has no counterpart here.
- Readiness.WhileLoading: the image lookups only log, so they have no counterpart here.
- Some behaviours of the code follow from the code alone:
  - A `data` text ending in a comma is rejected, because its last token is empty (`Grid.TrailingCommaFails`).
  - Fewer tokens than cells leaves zeros and is not an error.
  - A missing image does not hold up readiness.
- The loaders resolve their paths with the resolver as written: the methods call `PathResolver.LocalPathToProjectPath`, and the functions use `PathResolver.AsWrittenProjectPath`. So a load issued from a file two or more directories deep names its directories in reverse order. The corrected resolver `PathResolver.ProjectPath` is modelled beside it, and Findings describes the difference.

## Findings

| source | as written | input that shows it | evidently intended | confidence | as-written member | corrected member |
|---|---|---|---|---|---|---|
| src/map_loader.rs:374-376 | The leftover source directories are prepended one at a time from the first, so they end up in reverse order whenever two or more are left. | path `sprites.tsx` from `res/maps/tutorial/0.tmx` gives `tutorial/maps/res/sprites.tsx` | `res/maps/tutorial/sprites.tsx`: the directories in their own order, as in the doc-comment example, which leaves only one directory and so does not show the reversal | high (not executed) | PathResolver.AsWrittenReversesDirectories | PathResolver.ProjectPathResolvesRelative |

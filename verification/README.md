# OsmAnd avoid-roads ingestion and custom-plugin bookkeeping, in Dafny

This project models two pieces of OsmAnd and proves what they promise.

**The avoid-roads pipeline (`AvoidRoadsHelper`).**
- A GeoJSON file of points is read, up to a point limit.
- The points are enclosed in a running bounding box and put through a quadtree.
- The road matcher turns the points into road segments.
- Those segments replace the contents of the `roadsToAvoid` registry, a `LinkedHashMap` from segment to point.
- A separate record builder turns the registry into the `{road_id, lat, lon}` records of the exclusion file. Each `road_id` is the segment id shifted right by 6.

**The custom-plugin bookkeeping (`CustomOsmandPlugin`).**
- Router and renderer names are added to their lists only when absent.
- The plugin's resource directory is chosen.
- An icon file is matched against the icon names.
- The suggested-download and custom-region lists are replaced.
- Custom regions read from JSON are linked into a forest by `path` / `parentPath`, and that forest is flattened again.

Files:
- `Wrappers.dfy`: `Option` and `Result`.
- `JavaLong.dfy`: Java `long` and the arithmetic `>>`.
- `LinkedMaps.dfy`: `LinkedHashMap` as a value, a key order plus a map, with `put`, `putAll` and `clear`.
- `Paths.dfy`: `startsWith`, `endsWith`, `getFileWithoutDirs` and `new File(parent, child)`.
- `AvoidRoads.dfy`: `parseJson`, the registry class `AvoidRoadsHelper` and the `RoadsToAvoid` builder.
- `Regions.dfy`: `collectRegionsFromJson` and the flattening.
- `CustomPlugin.dfy`: the class `CustomOsmandPlugin`.

Modelling choices:
- Coordinates are `real`. Java `long` is a 64-bit newtype, and `>> 6` is proved to equal floor division by 64.
- A Java `null` is `None`. A thrown exception is a `Failure` value or `None`.
- The external collaborators are parameters:
  - the deserialised GeoJSON, `None` when reading or Gson failed;
  - the road matcher's answer;
  - the plugin directory;
  - the image `BitmapDrawable.createFromPath` decodes.
- Iteration over a `HashMap` has no fixed order. The model picks an order nondeterministically, and the contracts hold for every order.
- The quadtree step is also nondeterministic: `ParseJson` gets back a permutation of the points it inserted.
- Regions are values, so a region's subregions are built recursively. The walk follows the chain of ancestors, which also proves that it ends.
- An input with zero features leaves the registry as it was: `onPostExecute` forwards only a non-empty point list (AvoidRoadsHelper.java:297).
- `queryInBox` is handed the list that already holds the points (AvoidRoadsHelper.java:337). The model takes the query as replacing that list's contents with every inserted point once. The quadtree source is not part of this model.

## Model

| member | source | states |
|---|---|---|
| JavaLong.ShiftRightIsFloorDivision | OsmAnd/src/net/osmand/plus/avoidroads/AvoidRoadsHelper.java:420 | shifting right by n is floor division by 2^n: 2^n·r ≤ x < 2^n·(r+1), for negative x too |
| JavaLong.ShiftRightInRange | OsmAnd/src/net/osmand/plus/avoidroads/AvoidRoadsHelper.java:420 | the shift keeps the sign and never moves away from zero, so a `long` stays a `long` |
| JavaLong.ShiftRightLong | OsmAnd/src/net/osmand/plus/avoidroads/AvoidRoadsHelper.java:420 | `id >> n` on a `long` shifts by the low six bits of n, d = n mod 64, and is the `long` r with 2^d·r ≤ id < 2^d·(r+1) |
| JavaLong.ShiftDistanceWraps | OsmAnd/src/net/osmand/plus/avoidroads/AvoidRoadsHelper.java:420 | shift distances that differ by 64 give the same result, as Java masks the distance of a `long` shift |
| LinkedMaps.LinkedMap.Put | OsmAnd/src/net/osmand/plus/avoidroads/AvoidRoadsHelper.java:243 | `put` keeps the map well formed, updates the value, keeps an existing key's place and appends a new key |
| LinkedMaps.LinkedMap.PutAll | OsmAnd/src/net/osmand/plus/avoidroads/AvoidRoadsHelper.java:243 | `putAll` of a well-formed map gives a well-formed map |
| LinkedMaps.Empty | OsmAnd/src/net/osmand/plus/avoidroads/AvoidRoadsHelper.java:234 | `clear()` leaves a well-formed, empty map with no values |
| LinkedMaps.PutKeysFresh | OsmAnd/src/net/osmand/plus/avoidroads/AvoidRoadsHelper.java:243 | putting keys that are all new appends them in order and adds exactly their values |
| LinkedMaps.PutKeysPresent | OsmAnd/src/net/osmand/plus/avoidroads/AvoidRoadsHelper.java:243 | putting keys that are all present keeps the order and overrides only their values |
| LinkedMaps.PutKeysMapsTo | OsmAnd/src/net/osmand/plus/avoidroads/AvoidRoadsHelper.java:243 | after the puts every put key maps to its new value and every other key keeps its old one |
| LinkedMaps.PutKeysKeepsOrder | OsmAnd/src/net/osmand/plus/avoidroads/AvoidRoadsHelper.java:243 | the puts never move or drop an old key: the old order is a prefix of the new |
| LinkedMaps.PutKeysValues | OsmAnd/src/net/osmand/plus/avoidroads/AvoidRoadsHelper.java:243 | the puts leave the old values overridden by the put ones, and keep the old keys' order as a prefix |
| LinkedMaps.PutAllMerges | OsmAnd/src/net/osmand/plus/avoidroads/AvoidRoadsHelper.java:243 | `putAll` gives the union with the argument winning on shared keys, and keeps the old keys' order |
| LinkedMaps.ClearThenPutAll | OsmAnd/src/net/osmand/plus/avoidroads/AvoidRoadsHelper.java:234-243 | `clear()` then `putAll(m)` is exactly m, order included: no earlier entry survives |
| LinkedMaps.PutAllIdempotent | OsmAnd/src/net/osmand/plus/avoidroads/AvoidRoadsHelper.java:243 | merging the same map twice is merging it once |
| AvoidRoads.ReadPointsMeaning | OsmAnd/src/net/osmand/plus/avoidroads/AvoidRoadsHelper.java:313-330 | reading n features succeeds iff each has a geometry with two coordinates; the i-th point has latitude `coordinates[1]` and longitude `coordinates[0]` of the i-th feature; a failure names the first bad feature |
| AvoidRoads.ReadPointsFailureSticks | OsmAnd/src/net/osmand/plus/avoidroads/AvoidRoadsHelper.java:313-317 | once a feature throws, reading further features gives the same exception |
| AvoidRoads.ExtractionMeaning | OsmAnd/src/net/osmand/plus/avoidroads/AvoidRoadsHelper.java:307-332 | a missing `features` list throws; limit -1 or a limit above the feature count reads every feature; a limit from 0 to the count reads exactly that many; a limit below -1 reads none; points keep file order; no points give the box (0,0,0,0) |
| AvoidRoads.BoundingBoxEncloses | OsmAnd/src/net/osmand/plus/avoidroads/AvoidRoadsHelper.java:318-327 | every point lies inside `QuadRect(minlon, minlat, maxlon, maxlat)` |
| AvoidRoads.BoundingBoxIsLeast | OsmAnd/src/net/osmand/plus/avoidroads/AvoidRoadsHelper.java:318-327 | any box covering all points (at least one) covers the bounding box: it is the smallest |
| AvoidRoads.BoundingBoxSnoc | OsmAnd/src/net/osmand/plus/avoidroads/AvoidRoadsHelper.java:322-327 | one more min/max step gives the box of the longer list |
| AvoidRoads.ExtractPoints | OsmAnd/src/net/osmand/plus/avoidroads/AvoidRoadsHelper.java:307-332 | the clamp and min/max loop compute exactly the extraction: the points and box above, or the exception |
| AvoidRoads.AvoidRoadsHelper.constructor | OsmAnd/src/net/osmand/plus/avoidroads/AvoidRoadsHelper.java:75-88 | the registry and the point list start empty; the point limit starts at -1 |
| AvoidRoads.AvoidRoadsHelper.SelectPointsToProcess | OsmAnd/src/net/osmand/plus/avoidroads/AvoidRoadsHelper.java:140-165 | the limit is 10, 100 or 500 exactly when that button is checked, and -1 otherwise |
| AvoidRoads.AvoidRoadsHelper.ParseJson | OsmAnd/src/net/osmand/plus/avoidroads/AvoidRoadsHelper.java:304-337 | fails exactly as the extraction does; on success, the extraction's box is kept, the points are those extracted (as a multiset) and every one lies inside the query box |
| AvoidRoads.AvoidRoadsHelper.Publish | OsmAnd/src/net/osmand/plus/avoidroads/AvoidRoadsHelper.java:239-248 | completion fires iff the result is non-null and non-empty; only then is it merged with `putAll`; otherwise the registry is unchanged |
| AvoidRoads.AvoidRoadsHelper.ConvertPointsToRDO | OsmAnd/src/net/osmand/plus/avoidroads/AvoidRoadsHelper.java:233-255 | the registry ends exactly equal to a non-empty result, or empty; completion fires iff the result is non-empty |
| AvoidRoads.AvoidRoadsHelper.OnPointsParsed | OsmAnd/src/net/osmand/plus/avoidroads/AvoidRoadsHelper.java:109-114 | the parsed-point list becomes `result`, with no earlier point surviving, and the registry is replaced as above |
| AvoidRoads.AvoidRoadsHelper.LoadJson | OsmAnd/src/net/osmand/plus/avoidroads/AvoidRoadsHelper.java:258-302 | points are forwarded iff decoding and parsing succeed with at least one point; otherwise neither the registry nor the point list changes and nothing completes; when forwarded, the point list holds the extracted points |
| AvoidRoads.BuildRoadsToAvoid | OsmAnd/src/net/osmand/plus/avoidroads/AvoidRoadsHelper.java:417-421 | one record per registry entry, in iteration order, with `road_id = id >> 6` (64·road_id ≤ id < 64·(road_id+1)) and the entry's lat/lon copied |
| Paths.FileWithoutDirs | OsmAnd/src/net/osmand/plus/CustomOsmandPlugin.java:389 | the file name is a suffix of the path, holds no separator, and is preceded by a separator unless it is the whole path |
| Paths.FileWithoutDirsOfPlainName | OsmAnd/src/net/osmand/plus/CustomOsmandPlugin.java:389 | a name without separators is its own file name |
| Paths.FileWithoutDirsOfJoin | OsmAnd/src/net/osmand/plus/CustomOsmandPlugin.java:128 | the file name of `new File(parent, child)` is the child, when the child is a plain name |
| Regions.ByPathKeys | OsmAnd/src/net/osmand/plus/CustomOsmandPlugin.java:369-374 | the paths kept are exactly the paths of the input regions |
| Regions.ByPathStored | OsmAnd/src/net/osmand/plus/CustomOsmandPlugin.java:369-374 | every kept region is an input region, stored under its own path |
| Regions.ByPathLast | OsmAnd/src/net/osmand/plus/CustomOsmandPlugin.java:369-374 | a region that no later region shares its path with is the one kept under that path |
| Regions.LaterPathWins | OsmAnd/src/net/osmand/plus/CustomOsmandPlugin.java:369-374 | one region is kept per path, under that path; every kept region is an input region; a region that no later region shares its path with is the one kept |
| Regions.ByPathKeyed | OsmAnd/src/net/osmand/plus/CustomOsmandPlugin.java:373 | every stored region sits under its own path |
| Regions.ChildrenIn | OsmAnd/src/net/osmand/plus/CustomOsmandPlugin.java:375-380 | walking the map in a given order picks exactly the paths whose region names the parent, each once |
| Regions.ChildrenInPaths | OsmAnd/src/net/osmand/plus/CustomOsmandPlugin.java:375-380 | over an order that lists every stored path, the picked paths are exactly the children's paths |
| Regions.ChildrenInSnoc | OsmAnd/src/net/osmand/plus/CustomOsmandPlugin.java:375-384 | one more step of the walk adds the visited path when its region names the parent |
| Regions.AddSubregion | OsmAnd/src/net/osmand/plus/CustomOsmandPlugin.java:379 | `addSubregion` appends the child to the parent's subregion list and leaves every other list and the set of parents as they were |
| Regions.LinksStep | OsmAnd/src/net/osmand/plus/CustomOsmandPlugin.java:376-380 | `addSubregion` on an existing parent keeps each subregion list equal to the children visited so far |
| Regions.ExtendChain | OsmAnd/src/net/osmand/plus/CustomOsmandPlugin.java:376-380 | a region directly under a chain of ancestors is not on that chain, so the links from a root never cycle back |
| Regions.BuildAll | OsmAnd/src/net/osmand/plus/CustomOsmandPlugin.java:379 | the regions built for a list of paths are the stored regions under those paths, in order |
| Regions.BuildAllPaths | OsmAnd/src/net/osmand/plus/CustomOsmandPlugin.java:379 | the built regions' paths are the listed paths |
| Regions.BuildIsLinked | OsmAnd/src/net/osmand/plus/CustomOsmandPlugin.java:375-384 | a region built from complete subregion lists has exactly its children below it, each once, all linked in turn |
| Regions.BuildAllIsLinked | OsmAnd/src/net/osmand/plus/CustomOsmandPlugin.java:375-384 | regions built for distinct paths have distinct paths, name the chain's end as parent, and are linked |
| Regions.LinkRegions | OsmAnd/src/net/osmand/plus/CustomOsmandPlugin.java:375-384 | the second loop leaves as top-level paths exactly those whose region has an empty parent path, in iteration order, and as each parent's subregion list exactly its children, in iteration order |
| Regions.BuiltForest | OsmAnd/src/net/osmand/plus/CustomOsmandPlugin.java:375-385 | the lists the second loop leaves give a linked forest |
| Regions.CollectRegionsFromJson | OsmAnd/src/net/osmand/plus/CustomOsmandPlugin.java:367-386 | the roots, each once, are exactly the de-duplicated regions with an empty parent path; below every region are exactly the regions naming it as parent, each once, recursively |
| Regions.RootsOfCollect | OsmAnd/src/net/osmand/plus/CustomOsmandPlugin.java:369-383 | every returned root is an input region with an empty parent path; every such input region that no later region replaces is returned |
| Regions.ChildAttached | OsmAnd/src/net/osmand/plus/CustomOsmandPlugin.java:376-380 | a region whose parent path is present sits among the subregions of that parent wherever it is listed |
| Regions.FlatRegionsLinked | OsmAnd/src/net/osmand/plus/CustomOsmandPlugin.java:375-384 | every region in the flattened forest is the stored region under its path, is linked, and is top-level or has a stored parent |
| Regions.OrphanDropped | OsmAnd/src/net/osmand/plus/CustomOsmandPlugin.java:376-380 | a region whose parent path is absent never appears in the forest |
| Regions.HasParentInTree | OsmAnd/src/net/osmand/plus/CustomOsmandPlugin.java:347-352 | every region strictly inside a tree is a subregion of some region of that tree |
| Regions.ParentListed | OsmAnd/src/net/osmand/plus/CustomOsmandPlugin.java:339-352 | a listed region with a non-empty parent path has its parent listed too |
| Regions.OrphanSubtreeDropped | OsmAnd/src/net/osmand/plus/CustomOsmandPlugin.java:376-380 | an orphan is dropped together with every region below it, at any depth |
| Regions.DescendantsMembers | OsmAnd/src/net/osmand/plus/CustomOsmandPlugin.java:347-352 | the regions collected below a region are exactly those strictly below it |
| Regions.DescendantsOfAllMembers | OsmAnd/src/net/osmand/plus/CustomOsmandPlugin.java:341-343 | the regions collected below a list are exactly those strictly below one of its regions |
| Regions.FlatRegionsMembers | OsmAnd/src/net/osmand/plus/CustomOsmandPlugin.java:339-352 | the flattened list holds exactly the regions of the forest |
| Regions.DescendantsLength | OsmAnd/src/net/osmand/plus/CustomOsmandPlugin.java:347-352 | as many regions are collected below a region as its tree has, less itself |
| Regions.DescendantsOfAllLength | OsmAnd/src/net/osmand/plus/CustomOsmandPlugin.java:341-343 | as many regions are collected below a list as its trees have, less the roots |
| Regions.FlatRegionsLength | OsmAnd/src/net/osmand/plus/CustomOsmandPlugin.java:339-345 | the flattened list starts with the roots, and its length is the number of regions in the forest |
| Regions.DescendantsOfAllSnoc | OsmAnd/src/net/osmand/plus/CustomOsmandPlugin.java:341-343 | collecting below one more region appends that region's descendants |
| Regions.CollectCustomSubregionsFromRegion | OsmAnd/src/net/osmand/plus/CustomOsmandPlugin.java:347-352 | appends the region's subregions, then the descendants of each in turn |
| CustomPlugin.AddIfAbsent | OsmAnd/src/net/osmand/plus/CustomOsmandPlugin.java:388-400 | the name is present afterwards and nothing else is added; a present name changes nothing; a missing one is appended last; no duplicate is introduced |
| CustomPlugin.AddIfAbsentIdempotent | OsmAnd/src/net/osmand/plus/CustomOsmandPlugin.java:388-400 | adding a name twice is adding it once |
| CustomPlugin.StripAt | OsmAnd/src/net/osmand/plus/CustomOsmandPlugin.java:146-148 | the value loses exactly one leading `@`, if it has one, and is otherwise kept |
| CustomPlugin.NameMatchesMeaning | OsmAnd/src/net/osmand/plus/CustomOsmandPlugin.java:145-150 | a value without `@` must be a suffix of the path as it stands; `@` plus a value matches iff that value is a suffix |
| CustomPlugin.GetIconForFile | OsmAnd/src/net/osmand/plus/CustomOsmandPlugin.java:143-154 | the decoded image comes back iff some value, its leading `@` removed, is a suffix of the path; otherwise none |
| CustomPlugin.CustomOsmandPlugin.constructor | OsmAnd/src/net/osmand/plus/CustomOsmandPlugin.java:71-76 | fields as read from the JSON; the custom regions are `collectRegionsFromJson` of `regionsJson` when present, else empty |
| CustomPlugin.CustomOsmandPlugin.PluginResDir | OsmAnd/src/net/osmand/plus/CustomOsmandPlugin.java:125-131 | the result lies under the plugin directory; it is the plugin directory iff no resource directory is named; otherwise it is the plugin directory, one separator and the name, and nothing more |
| CustomPlugin.PluginResDirName | OsmAnd/src/net/osmand/plus/CustomOsmandPlugin.java:125-131 | a plain resource directory name is the file name of the directory chosen |
| CustomPlugin.CustomOsmandPlugin.SetResourceDirName | OsmAnd/src/net/osmand/plus/CustomOsmandPlugin.java:209-211 | only the resource directory name changes |
| CustomPlugin.CustomOsmandPlugin.AddRouter | OsmAnd/src/net/osmand/plus/CustomOsmandPlugin.java:388-393 | the router names get the file name if absent; no other field changes |
| CustomPlugin.CustomOsmandPlugin.AddRenderer | OsmAnd/src/net/osmand/plus/CustomOsmandPlugin.java:395-400 | the renderer names get the file name if absent; the router names and every other field stay |
| CustomPlugin.CustomOsmandPlugin.UpdateSuggestedDownloads | OsmAnd/src/net/osmand/plus/CustomOsmandPlugin.java:418-420 | the suggested downloads become a copy of the argument; nothing else changes |
| CustomPlugin.CustomOsmandPlugin.UpdateDownloadItems | OsmAnd/src/net/osmand/plus/CustomOsmandPlugin.java:422-424 | the custom regions become a copy of the argument; nothing else changes |
| CustomPlugin.CustomOsmandPlugin.GetFlatCustomRegions | OsmAnd/src/net/osmand/plus/CustomOsmandPlugin.java:339-345 | the roots, then for each root in turn everything below it: the flattened forest |

## Left out

- LockHelper (OsmAnd-turn_screen_on): device-API calls only, with no logic of its own.
- Threading: `AsyncTask`, the executor and the callbacks become sequential calls. `LoadJson` runs the background step and `onPostExecute` in one call.
- I/O: file and network input, `saveRoadsToJson` and its non-atomic delete-then-write. That write is switched off by `saveResultToFile = false`.
- Gson: deserialisation is an input value, and a failed read is `None`.
  - A `null` element inside `features` or `coordinates` is not representable in this model, so the exceptions it would raise are not modelled.
  - A `type` member is never read, so it is left out.
- QuadTree: its source is not part of this model, and its `(float)` casts are floating point. `ParseJson` assumes `queryInBox` over the tree's own box empties the list it is handed and refills it with each inserted point exactly once, in some order.
- AvoidRoads.AvoidRoadsHelper.ParseJson: states the returned points as a multiset, not their order, because the quadtree's order is not modelled.
- getMultipleRouteSegmentsIds: the road matcher is external. Its answer is a parameter, unrelated to the points given.
- Routing-config calls (`clearImpassableRoads`, `addMultipleImpassableRoads`): foreign.
- Dialogs, toasts, timing fields and float formatting: user interface only. `showUrlDialog`'s URL check goes too; only its choice of point limit is kept, as `SelectPointsToProcess`.
- `onRDOSearchComplete`: modelled only as the `completed` flag, because its body is file writing, routing-config and UI calls.
- LinkedMaps.LinkedMap.PutAll: the order of keys that `putAll` adds to an already non-empty registry is proved only as "old keys keep their order". The pipeline always merges into an empty registry, where `ClearThenPutAll` gives the full order.
- CustomOsmandPlugin plumbing: left out because it is settings, UI or foreign code:
  - settings import and removal through `SettingsHelper`;
  - `getSuggestedMaps`;
  - `Drawable` loading, `Html.fromHtml` and the `JsonUtils` helpers;
  - `loadResources`' directory listing;
  - the JSON reading in the constructor and in `readDependentFilesFromJson`;
  - the getters.
- `CustomRegion.fromJson`: the regions arrive already read, as `(path, parentPath, details)`. A `null` parent path is the empty string, as `Algorithms.isEmpty` treats both alike.
- `BitmapDrawable.createFromPath`: the decoded image, or its failure, is a parameter.
- `getPluginDir`: the application's directory layout is a constructor argument.
- `new File(parent, child)`: modelled as `parent + "/" + child`, without File's path normalisation.
- `Algorithms.getFileWithoutDirs` is not part of this model. It is taken to be the text after the last `/`.
- Object identity among `WorldRegion`s: regions are values here. Only regions reachable from a root are modelled. A cycle of parent paths, which Java would link among objects no root reaches, is invisible in both.

/** The list, tree and string bookkeeping of `CustomOsmandPlugin`: the router and renderer
    name lists, the resource directory, the icon lookup, the download lists and the custom
    regions. */
module CustomPlugin {
  import opened Wrappers
  import opened LinkedMaps
  import opened Paths
  import opened Regions

  /** A suggested download as the plugin's JSON describes it. */
  datatype SuggestedDownloadItem = SuggestedDownloadItem(scopeId: string, searchType: string, names: seq<string>, limit: int)

  /** A decoded image, known only by the file it was read from. */
  datatype Drawable = Drawable(sourcePath: string)

  /** `names` with `name` added at the end unless already present (`contains`, then `add`). */
  function AddIfAbsent(names: seq<string>, name: string): (r: seq<string>)
    ensures forall q :: q in r <==> q in names || q == name
    ensures |names| <= |r| <= |names| + 1 && r[..|names|] == names
    ensures name in names ==> r == names
    ensures name !in names ==> |r| == |names| + 1 && r[|names|] == name
    ensures Distinct(names) ==> Distinct(r)
  {
    if name in names then names
    else
      assert (names + [name])[..|names|] == names;
      names + [name]
  }

  /** Adding a name twice is adding it once; a present name changes nothing. */
  lemma AddIfAbsentIdempotent(names: seq<string>, name: string)
    ensures AddIfAbsent(AddIfAbsent(names, name), name) == AddIfAbsent(names, name)
    ensures name in names ==> AddIfAbsent(names, name) == names
  {
  }

  /** The value of an icon or image entry with one leading `@` removed. */
  function StripAt(value: string): (v: string)
    ensures value == v || value == ['@'] + v
    ensures |value| > 0 && value[0] == '@' ==> |v| == |value| - 1
  {
    if StartsWith(value, "@") then value[1..] else value
  }

  /** The rule getIconForFile applies to one entry: the file path ends with the value, once a
      leading `@` is removed. */
  predicate NameMatches(path: string, value: string) {
    EndsWith(path, StripAt(value))
  }

  /** A value without a leading `@` must be a suffix as it stands; one with it, without it. */
  lemma NameMatchesMeaning(path: string, value: string)
    ensures !StartsWith(value, "@") ==> (NameMatches(path, value) <==> EndsWith(path, value))
    ensures NameMatches(path, ['@'] + value) <==> EndsWith(path, value)
  {
    assert (['@'] + value)[1..] == value;
  }

  /** getIconForFile: the entries are tried in the map's unspecified order; the first whose
      value matches the path yields the image `BitmapDrawable.createFromPath(path)` makes,
      which is `createdFromPath` (none when the file cannot be decoded); no match yields none. */
  method GetIconForFile(path: string, fileNames: map<string, string>, createdFromPath: Option<Drawable>) returns (d: Option<Drawable>)
    ensures (exists k :: k in fileNames && NameMatches(path, fileNames[k])) ==> d == createdFromPath
    ensures (forall k :: k in fileNames ==> !NameMatches(path, fileNames[k])) ==> d == None
  {
    var remaining := fileNames.Keys;
    while remaining != {}
      invariant remaining <= fileNames.Keys
      invariant forall k :: k in fileNames && k !in remaining ==> !NameMatches(path, fileNames[k])
      decreases remaining
    {
      var k :| k in remaining;
      var value := fileNames[k];
      if StartsWith(value, "@") {
        value := value[1..];
      }
      if EndsWith(path, value) {
        return createdFromPath;
      }
      remaining := remaining - {k};
    }
    return None;
  }

  /** The plugin's state that the modelled operations read and change. The plugin directory
      is `app.getAppPath(PLUGINS_DIR + pluginId)`, which the application decides; it is a
      constructor argument here. */
  class CustomOsmandPlugin {
    const pluginId: string
    const pluginDir: string
    var resourceDirName: string
    var iconNames: map<string, string>
    var imageNames: map<string, string>
    var rendererNames: seq<string>
    var routerNames: seq<string>
    var suggestedDownloadItems: seq<SuggestedDownloadItem>
    var customRegions: seq<WorldRegion>

    /** The constructor after its JSON has been read: `regionsJson`, when present, is linked
        by collectRegionsFromJson into the custom regions. */
    constructor (pluginId: string, pluginDir: string, resourceDirName: string,
                 iconNames: map<string, string>, imageNames: map<string, string>,
                 rendererNames: seq<string>, routerNames: seq<string>,
                 regionsJson: Option<seq<CustomRegion>>)
      ensures this.pluginId == pluginId && this.pluginDir == pluginDir
      ensures this.resourceDirName == resourceDirName
      ensures this.iconNames == iconNames && this.imageNames == imageNames
      ensures this.rendererNames == rendererNames && this.routerNames == routerNames
      ensures suggestedDownloadItems == []
      ensures regionsJson.None? ==> customRegions == []
      ensures regionsJson.Some? ==> LinkedForest(ByPath(regionsJson.value), customRegions)
    {
      this.pluginId := pluginId;
      this.pluginDir := pluginDir;
      this.resourceDirName := resourceDirName;
      this.iconNames := iconNames;
      this.imageNames := imageNames;
      this.rendererNames := rendererNames;
      this.routerNames := routerNames;
      suggestedDownloadItems := [];
      var regions: seq<WorldRegion> := [];
      if regionsJson.Some? {
        var collected := CollectRegionsFromJson(regionsJson.value);
        regions := regions + collected;
        assert regions == collected;
      }
      customRegions := regions;
    }

    /** getPluginResDir: the resource subdirectory when one is named, else the plugin
        directory itself. */
    function PluginResDir(): (dir: string)
      reads this
      ensures StartsWith(dir, pluginDir)
      ensures dir == pluginDir <==> resourceDirName == ""
      ensures resourceDirName != "" ==> EndsWith(dir, resourceDirName) && dir[|pluginDir|] == Separator
      ensures resourceDirName != "" ==> |dir| == |pluginDir| + 1 + |resourceDirName|
    {
      if resourceDirName != "" then Join(pluginDir, resourceDirName) else pluginDir
    }

    /** setResourceDirName. */
    method SetResourceDirName(name: string)
      modifies this`resourceDirName
      ensures resourceDirName == name
    {
      resourceDirName := name;
    }

    /** addRouter: the file's name joins the router names unless already there. */
    method AddRouter(fileName: string)
      modifies this`routerNames
      ensures routerNames == AddIfAbsent(old(routerNames), FileWithoutDirs(fileName))
    {
      var routerName := FileWithoutDirs(fileName);
      if routerName !in routerNames {
        routerNames := routerNames + [routerName];
      }
    }

    /** addRenderer: the file's name joins the renderer names unless already there. */
    method AddRenderer(fileName: string)
      modifies this`rendererNames
      ensures rendererNames == AddIfAbsent(old(rendererNames), FileWithoutDirs(fileName))
    {
      var rendererName := FileWithoutDirs(fileName);
      if rendererName !in rendererNames {
        rendererNames := rendererNames + [rendererName];
      }
    }

    /** updateSuggestedDownloads: the list becomes a copy of `items`. */
    method UpdateSuggestedDownloads(items: seq<SuggestedDownloadItem>)
      modifies this`suggestedDownloadItems
      ensures suggestedDownloadItems == items
    {
      suggestedDownloadItems := items;
    }

    /** updateDownloadItems: the custom regions become a copy of `items`. */
    method UpdateDownloadItems(items: seq<WorldRegion>)
      modifies this`customRegions
      ensures customRegions == items
    {
      customRegions := items;
    }

    /** getFlatCustomRegions: a copy of the top-level regions, then everything below each,
        region by region. */
    method GetFlatCustomRegions() returns (l: seq<WorldRegion>)
      ensures l == FlatRegions(customRegions)
    {
      l := customRegions;
      for i := 0 to |customRegions|
        invariant l == customRegions + DescendantsOfAll(customRegions[..i])
      {
        DescendantsOfAllSnoc(customRegions, i);
        l := CollectCustomSubregionsFromRegion(customRegions[i], l);
      }
      assert customRegions[..|customRegions|] == customRegions;
    }
  }

  /** A plain resource directory name is the file name of the directory it selects. */
  lemma PluginResDirName(p: CustomOsmandPlugin)
    requires p.resourceDirName != "" && Separator !in p.resourceDirName
    ensures FileWithoutDirs(p.PluginResDir()) == p.resourceDirName
  {
    FileWithoutDirsOfJoin(p.pluginDir, p.resourceDirName);
  }
}

/** The slide catalog: a slide directory, its scenes (the sub-directories that
    hold a `tiles` directory) and the round and tile lookups across scenes.

    Nothing here touches a disk: what the Java code asks of the filesystem is a
    `FileSystem` value, the polygon names of `.slide.json` are a set, and the
    construction of one scene is an injected `SceneLoader`. Log messages are
    returned as `Warning` values. */
module Catalog {
  import opened Results
  import opened Seqs
  import opened StringOrder

  /** A filesystem path as its name components; `[]` is the root, the one
      path that has no file name. */
  type Path = seq<string>

  /** What the catalog can learn from the disk: whether a path exists, and the
      entry names a directory listing yields (a path missing from `listings`
      cannot be opened as a directory). */
  datatype FileSystem = FileSystem(existing: set<Path>, listings: map<Path, seq<string>>)
  {
    predicate Exists(p: Path)
    {
      p in existing
    }
  }

  /** A scene as the catalog sees it: its directory name, its round names in
      order, and each round's tile paths. How a scene is read from disk (and
      which rounds a round selection keeps) is the loader's business. */
  datatype Scene = Scene(name: string, roundNames: seq<string>, tilePaths: map<string, seq<Path>>)
  {
    /** The tiles of one round of this scene; a round the scene lacks has none. */
    function TilePathsForRound(round: string): seq<Path>
    {
      if round in tilePaths then tilePaths[round] else []
    }
  }

  /** Reads the scene in a directory, keeping only the selected rounds when a
      round selection is given: the round names and per-round tile paths. */
  type SceneLoader = (Path, Option<set<string>>) -> (seq<string>, map<string, seq<Path>>)

  /** The warnings the catalog logs and carries on after. */
  datatype Warning =
    | ScenesMismatch                      // `.slide.json` and the directory disagree on the scenes
    | UnrecognizedScenes(names: set<string>) // selected scene names that are not on disk
    | NoTilePathsForRound(round: string)  // a tile lookup for a round no scene has

  /** Why a slide cannot be built. */
  datatype SlideError =
    | InvalidPath(path: Path)   // the slide directory or its `.slide.json` is missing
    | NoFileName                // the root path has no file name to name the slide after
    | ListingFailed(path: Path) // the slide directory cannot be listed

  /** A scene lookup by a name no scene has. */
  datatype LookupError = NoSuchElement(name: string)

  const SlideJson := ".slide.json"
  const TilesDir := "tiles"

  /** The entries of a listable directory that hold a `tiles` entry. */
  function DiscoveredScenes(fs: FileSystem, dir: Path): set<string>
    requires dir in fs.listings
  {
    set e | e in fs.listings[dir] && fs.Exists(dir + [e, TilesDir])
  }

  /** The discovered scene names, narrowed to a selection when there is one. */
  function ChosenScenes(found: set<string>, selected: Option<set<string>>): set<string>
  {
    match selected
    case None => found
    case Some(names) => found * names
  }

  /** The scene in directory `dir/sceneName`, named after its directory. */
  function LoadScene(dir: Path, sceneName: string, selectedRounds: Option<set<string>>, load: SceneLoader): Scene
  {
    var contents := load(dir + [sceneName], selectedRounds);
    Scene(sceneName, contents.0, contents.1)
  }

  /** The scenes a slide in directory `dir` is built with: one per chosen
      scene name, sorted by name, each read from its directory. Nothing of
      `.slide.json` goes in. */
  function ExpectedScenes(fs: FileSystem, dir: Path, selectedScenes: Option<set<string>>,
                          selectedRounds: Option<set<string>>, load: SceneLoader): seq<Scene>
    requires dir in fs.listings
  {
    var names := SortedSet(ChosenScenes(DiscoveredScenes(fs, dir), selectedScenes));
    seq(|names|, i requires 0 <= i < |names| => LoadScene(dir, names[i], selectedRounds, load))
  }

  /** Every scene's round names, scene after scene. */
  function AllRounds(scenes: seq<Scene>): seq<string>
  {
    if scenes == [] then []
    else AllRounds(scenes[..|scenes| - 1]) + scenes[|scenes| - 1].roundNames
  }

  /** Every scene's tile paths for one round, scene after scene. */
  function TilesAcross(scenes: seq<Scene>, round: string): seq<Path>
  {
    if scenes == [] then []
    else TilesAcross(scenes[..|scenes| - 1], round) + scenes[|scenes| - 1].TilePathsForRound(round)
  }

  /** A built slide. It never changes after construction. */
  datatype Slide = Slide(path: Path, name: string, jsonPath: Path, scenes: seq<Scene>)
  {
    /** The scenes are in strictly ascending order of name. */
    ghost predicate Valid()
    {
      forall i, j :: 0 <= i < j < |scenes| ==> Less(scenes[i].name, scenes[j].name)
    }

    /** The scene names in scene order. */
    function SceneNames(): (r: seq<string>)
      ensures |r| == |scenes|
      ensures forall n :: n in r <==> exists i :: 0 <= i < |scenes| && scenes[i].name == n
      ensures Valid() ==> StrictlyAscending(r) && NoDup(r)
    {
      var r := seq(|scenes|, i requires 0 <= i < |scenes| => scenes[i].name);
      assert forall i :: 0 <= i < |scenes| ==> r[i] == scenes[i].name;
      AscendingNoDup(r);
      r
    }

    /** The first scene named `n`, or NoSuchElement when there is none. */
    method GetScene(n: string) returns (r: Result<Scene, LookupError>)
      ensures r.Err? <==> n !in SceneNames()
      ensures r.Err? ==> r.error == NoSuchElement(n)
      ensures r.Ok? ==> exists i :: 0 <= i < |scenes| && scenes[i] == r.value && r.value.name == n
                                    && forall j :: 0 <= j < i ==> scenes[j].name != n
      ensures r.Ok? && Valid() ==> forall s :: s in scenes && s.name == n ==> s == r.value
    {
      var i := 0;
      while i < |scenes|
        invariant 0 <= i <= |scenes|
        invariant forall j :: 0 <= j < i ==> scenes[j].name != n
      {
        if scenes[i].name == n {
          r := Ok(scenes[i]);
          if Valid() {
            forall s | s in scenes && s.name == n ensures s == scenes[i] {
              LessIrreflexive(n);
            }
          }
          return;
        }
        i := i + 1;
      }
      r := Err(NoSuchElement(n));
    }

    /** The round names of all scenes, each once, in the order first met
        walking the scenes in order and each scene's rounds in order. */
    method RoundNames() returns (rounds: seq<string>)
      ensures rounds == FirstSeen(AllRounds(scenes))
      ensures NoDup(rounds)
      ensures forall x :: x in rounds <==> exists i :: 0 <= i < |scenes| && x in scenes[i].roundNames
    {
      rounds := [];
      for i := 0 to |scenes|
        invariant rounds == FirstSeen(AllRounds(scenes[..i]))
      {
        var names := scenes[i].roundNames;
        var met := AllRounds(scenes[..i]);
        assert met + names[..0] == met;
        for j := 0 to |names|
          invariant rounds == FirstSeen(met + names[..j])
        {
          assert met + names[..j + 1] == (met + names[..j]) + [names[j]];
          FirstSeenSnoc(met + names[..j], names[j]);
          if names[j] !in rounds {
            rounds := rounds + [names[j]];
          }
        }
        assert scenes[..i + 1][..i] == scenes[..i];
        assert names[..|names|] == names;
        assert AllRounds(scenes[..i + 1]) == met + names;
      }
      assert scenes[..|scenes|] == scenes;
      FirstSeenNoDup(AllRounds(scenes));
      FirstSeenElems(AllRounds(scenes));
      AllRoundsMembers(scenes);
    }

    /** The tile paths of round `round` across all scenes in scene order, or
        none and a warning when no scene has that round. */
    method TilePathsForRound(round: string) returns (paths: seq<Path>, warning: Option<Warning>)
      ensures (forall s :: s in scenes ==> round !in s.roundNames) ==>
                paths == [] && warning == Some(NoTilePathsForRound(round))
      ensures (exists s :: s in scenes && round in s.roundNames) ==>
                paths == TilesAcross(scenes, round) && warning == None
    {
      var rounds := RoundNames();
      if round !in rounds {
        forall s | s in scenes
          ensures round !in s.roundNames
        {
          var k :| 0 <= k < |scenes| && scenes[k] == s;
        }
        return [], Some(NoTilePathsForRound(round));
      }
      var k :| 0 <= k < |scenes| && round in scenes[k].roundNames;
      assert scenes[k] in scenes;
      paths := [];
      for i := 0 to |scenes|
        invariant paths == TilesAcross(scenes[..i], round)
      {
        assert scenes[..i + 1][..i] == scenes[..i];
        paths := paths + scenes[i].TilePathsForRound(round);
      }
      assert scenes[..|scenes|] == scenes;
      warning := None;
    }
  }

  /** A round name occurs in the concatenated round lists exactly when some
      scene has it. */
  lemma {:induction false} AllRoundsMembers(scenes: seq<Scene>)
    ensures forall x :: x in AllRounds(scenes) <==> exists i :: 0 <= i < |scenes| && x in scenes[i].roundNames
  {
    if scenes != [] {
      var init := scenes[..|scenes| - 1];
      AllRoundsMembers(init);
      assert forall i :: 0 <= i < |init| ==> init[i] == scenes[i];
    }
  }

  /** Tile lookups across two runs of scenes concatenate in scene order. */
  lemma {:induction false} TilesAcrossAppend(a: seq<Scene>, b: seq<Scene>, round: string)
    ensures TilesAcross(a + b, round) == TilesAcross(a, round) + TilesAcross(b, round)
  {
    if b != [] {
      var init := b[..|b| - 1];
      TilesAcrossAppend(a, init, round);
      assert (a + b)[..|a + b| - 1] == a + init;
    } else {
      assert a + b == a;
    }
  }

  /** A path is among a round's tiles across scenes exactly when it is among
      that round's tiles of one of the scenes. */
  lemma {:induction false} TilesAcrossMembers(scenes: seq<Scene>, round: string)
    ensures forall p :: p in TilesAcross(scenes, round) <==>
              exists i :: 0 <= i < |scenes| && p in scenes[i].TilePathsForRound(round)
  {
    if scenes != [] {
      var init := scenes[..|scenes| - 1];
      TilesAcrossMembers(init, round);
      assert forall i :: 0 <= i < |init| ==> init[i] == scenes[i];
    }
  }

  /** Lists a slide directory and keeps the names of the entries that hold a
      `tiles` entry; fails when the directory cannot be listed. */
  method SceneNamesFromFileSystem(fs: FileSystem, slidePath: Path) returns (r: Result<set<string>, SlideError>)
    ensures r.Err? <==> slidePath !in fs.listings
    ensures r.Err? ==> r.error == ListingFailed(slidePath)
    ensures r.Ok? ==> forall e :: e in r.value <==> e in fs.listings[slidePath] && fs.Exists(slidePath + [e, TilesDir])
  {
    if slidePath !in fs.listings {
      return Err(ListingFailed(slidePath));
    }
    var entries := fs.listings[slidePath];
    var names: set<string> := {};
    for i := 0 to |entries|
      invariant forall e :: e in names <==> e in entries[..i] && fs.Exists(slidePath + [e, TilesDir])
    {
      assert entries[..i + 1] == entries[..i] + [entries[i]];
      if fs.Exists(slidePath + [entries[i], TilesDir]) {
        names := names + {entries[i]};
      }
    }
    assert entries[..|entries|] == entries;
    r := Ok(names);
  }

  /** The warnings the constructor logs, read off their list: a mismatch with
      `.slide.json` exactly when the names differ, and the selected names
      missing from `found` exactly when there are some. */
  lemma WarningsListed(warnings: seq<Warning>, polygonNames: set<string>, found: set<string>,
                       selectedScenes: Option<set<string>>)
    requires warnings ==
      (if polygonNames != found then [ScenesMismatch] else [])
      + (if selectedScenes.Some? && selectedScenes.value - found != {}
         then [UnrecognizedScenes(selectedScenes.value - found)] else [])
    ensures ScenesMismatch in warnings <==> polygonNames != found
    ensures forall names :: UnrecognizedScenes(names) in warnings <==>
              selectedScenes.Some? && names == selectedScenes.value - found && names != {}
    ensures |warnings| <= 2 && (ScenesMismatch in warnings ==> warnings[0] == ScenesMismatch)
  {
  }

  /** Builds the slide in directory `path`. `polygonNames` are the scene
      names `.slide.json` declares; they only decide whether a mismatch is
      reported. `selectedScenes` narrows the scenes, `selectedRounds` is handed
      to every scene. */
  method NewSlide(path: Path, fs: FileSystem, polygonNames: set<string>,
                  selectedScenes: Option<set<string>>, selectedRounds: Option<set<string>>,
                  load: SceneLoader)
    returns (r: Result<Slide, SlideError>, warnings: seq<Warning>)
    // the three failures, in the order they are met
    ensures !fs.Exists(path) || !fs.Exists(path + [SlideJson]) ==> r == Err(InvalidPath(path))
    ensures fs.Exists(path) && fs.Exists(path + [SlideJson]) && path == [] ==> r == Err(NoFileName)
    ensures fs.Exists(path) && fs.Exists(path + [SlideJson]) && path != [] && path !in fs.listings ==>
              r == Err(ListingFailed(path))
    ensures r.Ok? <==> fs.Exists(path) && fs.Exists(path + [SlideJson]) && path != [] && path in fs.listings
    ensures r.Err? ==> warnings == []
    // a built slide: named after its directory, its scenes sorted by name ...
    ensures r.Ok? ==> r.value.path == path && r.value.name == path[|path| - 1]
                      && r.value.jsonPath == path + [SlideJson]
    ensures r.Ok? ==> r.value.Valid()
    // ... exactly the discovered scenes the selection keeps, each loaded from its
    // directory, whatever `polygonNames` holds
    ensures r.Ok? ==> forall n :: n in r.value.SceneNames() <==>
              n in DiscoveredScenes(fs, path) && (selectedScenes.None? || n in selectedScenes.value)
    ensures r.Ok? ==> r.value.scenes == ExpectedScenes(fs, path, selectedScenes, selectedRounds, load)
    // the warnings: a mismatch with `.slide.json`, then the selected names not on disk
    ensures r.Ok? ==> (ScenesMismatch in warnings <==> polygonNames != DiscoveredScenes(fs, path))
    ensures r.Ok? ==> forall names :: UnrecognizedScenes(names) in warnings <==>
              selectedScenes.Some? && names == selectedScenes.value - DiscoveredScenes(fs, path) && names != {}
    ensures r.Ok? ==> |warnings| <= 2 && (ScenesMismatch in warnings ==> warnings[0] == ScenesMismatch)
    // ... and no others, in that order
    ensures r.Ok? ==>
      (warnings ==
         (if polygonNames != DiscoveredScenes(fs, path) then [ScenesMismatch] else [])
         + (if selectedScenes.Some? && selectedScenes.value - DiscoveredScenes(fs, path) != {}
            then [UnrecognizedScenes(selectedScenes.value - DiscoveredScenes(fs, path))] else []))
  {
    warnings := [];
    var jsonPath := path + [SlideJson];
    if !fs.Exists(path) || !fs.Exists(jsonPath) {
      return Err(InvalidPath(path)), [];
    }
    if path == [] {
      return Err(NoFileName), [];
    }
    var name := path[|path| - 1];

    var fromFileSystem := SceneNamesFromFileSystem(fs, path);
    if fromFileSystem.Err? {
      return Err(fromFileSystem.error), [];
    }
    var found := fromFileSystem.value;
    assert found == DiscoveredScenes(fs, path);
    if polygonNames != found {
      warnings := warnings + [ScenesMismatch];
    }
    ghost var mismatch := warnings;
    assert mismatch == if polygonNames != found then [ScenesMismatch] else [];

    var chosen := found;
    if selectedScenes.Some? {
      var extra := selectedScenes.value - found;
      if |extra| != 0 {
        warnings := warnings + [UnrecognizedScenes(extra)];
      }
      chosen := chosen * selectedScenes.value;
    }
    assert warnings == mismatch
      + (if selectedScenes.Some? && selectedScenes.value - found != {}
         then [UnrecognizedScenes(selectedScenes.value - found)] else []);

    var names := SortedSet(chosen);
    var scenes := seq(|names|, i requires 0 <= i < |names| => LoadScene(path, names[i], selectedRounds, load));
    var slide := Slide(path, name, jsonPath, scenes);
    assert slide.SceneNames() == names;
    assert forall n :: n in names <==> n in Elems(names);
    WarningsListed(warnings, polygonNames, found, selectedScenes);
    r := Ok(slide);
  }
}

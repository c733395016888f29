/**
 * The scene registry of io_mesh_urho/export_scene.py: `UrhoScene` keeps the exported models
 * and a dictionary from `pathType + name` to the exported file's path, `SortModels` orders the
 * models parent-before-child, and `UrhoWriteMaterialsList` builds the text of a model's
 * material list file.
 */
module Registry {
  import opened Wrappers
  import opened Hierarchy
  import opened SortFacts
  import opened Text
  import opened Geometry

  /** The prefixes of the `PathType` constants of the add-on's utilities: one per kind of exported file. */
  datatype PathTypes = PathTypes(models: string, materials: string, objects: string, scenes: string)

  /** `UrhoSceneMaterial`: the material's name (None when its geometry has none). */
  datatype SceneMaterial = SceneMaterial(name: Option<string>)

  /** `UrhoSceneModel`, as `UrhoSceneModel.Load` leaves it. */
  datatype SceneModel = SceneModel(
    name: string,
    objectName: Option<string>,
    parentObjectName: Option<string>,
    mtype: string,
    materials: seq<SceneMaterial>,
    boundingBox: BoundingBox)

  function ModelName(m: SceneModel): string {
    m.name
  }

  function ParentName(m: SceneModel): Option<string> {
    m.parentObjectName
  }

  /** `FindFile`: the path stored under `pathType + name`, None for a None name or a missing key. */
  function Lookup(files: map<string, string>, pathType: string, name: Option<string>): Option<string> {
    if name.None? then None
    else if pathType + name.value in files then Some(files[pathType + name.value])
    else None
  }

  /** `AddFile` refuses a None or empty name, and a name that is itself a key of the dictionary. */
  predicate Accepts(files: map<string, string>, name: Option<string>) {
    Truthy(name) && name.value !in files
  }

  /** The dictionary after `AddFile`. */
  function Registered(files: map<string, string>, pathType: string, name: Option<string>, path: string): map<string, string> {
    if Accepts(files, name) then files[pathType + name.value := path] else files
  }

  /** After a successful `AddFile`, `FindFile` with the same type and name returns the path. */
  lemma FindAfterAdd(files: map<string, string>, pathType: string, name: Option<string>, path: string)
    requires Accepts(files, name)
    ensures Lookup(Registered(files, pathType, name, path), pathType, name) == Some(path)
  {
  }

  /** `AddFile` changes no other lookup, and a refused `AddFile` changes nothing. */
  lemma AddKeepsOthers(files: map<string, string>, pathType: string, name: Option<string>, path: string,
                       pathType': string, name': Option<string>)
    requires !Accepts(files, name) || name'.None? || pathType' + name'.value != pathType + name.value
    ensures Lookup(Registered(files, pathType, name, path), pathType', name') == Lookup(files, pathType', name')
  {
  }

  /**
   * The duplicate test looks at the bare name, not at the key: with a non-empty path type the
   * same (type, name) is accepted again and the second path replaces the first; with an empty
   * path type the key is the bare name and the second `AddFile` is refused.
   */
  lemma AddTwice(files: map<string, string>, pathType: string, name: Option<string>, p1: string, p2: string)
    requires Accepts(files, name)
    ensures pathType != "" ==>
      && Accepts(Registered(files, pathType, name, p1), name)
      && Lookup(Registered(Registered(files, pathType, name, p1), pathType, name, p2), pathType, name) == Some(p2)
    ensures pathType == "" ==>
      && !Accepts(Registered(files, pathType, name, p1), name)
      && Lookup(Registered(Registered(files, pathType, name, p1), pathType, name, p2), pathType, name) == Some(p1)
  {
    if pathType != "" {
      assert |pathType + name.value| > |name.value|;
    } else {
      assert pathType + name.value == name.value;
    }
  }

  /** The line of the material list for one material: its path, or "null" when the lookup is falsy. */
  function MaterialLine(files: map<string, string>, pathType: string, m: SceneMaterial): string {
    var file := Lookup(files, pathType, m.name);
    if Truthy(file) then file.value else "null"
  }

  function MaterialLines(files: map<string, string>, pathType: string, mats: seq<SceneMaterial>): (lines: seq<string>)
    ensures |lines| == |mats|
    ensures forall i :: 0 <= i < |mats| ==> lines[i] == MaterialLine(files, pathType, mats[i])
  {
    if mats == [] then []
    else MaterialLines(files, pathType, mats[..|mats| - 1]) + [MaterialLine(files, pathType, mats[|mats| - 1])]
  }

  /** The text `UrhoWriteMaterialsList` writes for the model named `name`; None when no model has that name. */
  function MaterialsListContent(models: seq<SceneModel>, files: map<string, string>, pathType: string, name: string): Option<string> {
    match KeyIndex(models, ModelName, name)
    case None => None
    case Some(i) => Some(Terminated(MaterialLines(files, pathType, models[i].materials)))
  }

  /**
   * The material list has one newline-ended line per material of the first model with that
   * name, in order: the registered path, or "null" when there is none. A reader splitting it
   * at newlines gets those lines and an empty rest.
   */
  lemma MaterialsListLines(models: seq<SceneModel>, files: map<string, string>, pathType: string, name: string)
    requires forall k :: k in files ==> '\n' !in files[k]
    ensures MaterialsListContent(models, files, pathType, name).None? <==> forall i :: 0 <= i < |models| ==> models[i].name != name
    ensures MaterialsListContent(models, files, pathType, name).Some? ==>
      exists i :: 0 <= i < |models| && models[i].name == name &&
        var lines := Text.Split(MaterialsListContent(models, files, pathType, name).value, '\n');
        && |lines| == |models[i].materials| + 1
        && lines[|models[i].materials|] == ""
        && forall j :: 0 <= j < |models[i].materials| ==> lines[j] == MaterialLine(files, pathType, models[i].materials[j])
  {
    match KeyIndex(models, ModelName, name)
    case None =>
    case Some(i) =>
      var lines := MaterialLines(files, pathType, models[i].materials);
      forall j | 0 <= j < |lines| ensures '\n' !in lines[j] {
        var file := Lookup(files, pathType, models[i].materials[j].name);
        if Truthy(file) {
          assert pathType + models[i].materials[j].name.value in files;
        }
      }
      SplitTerminated(lines, "");
      assert Terminated(lines) + "" == Terminated(lines);
      assert models[i].name == name;
  }

  class UrhoScene {
    var blenderSceneName: string
    var models: seq<SceneModel>
    var files: map<string, string>

    constructor (sceneName: string)
      ensures blenderSceneName == sceneName && models == [] && files == map[]
    {
      blenderSceneName := sceneName;
      models := [];
      files := map[];
    }

    /** `AddFile`, answering whether the file was registered. */
    method AddFile(pathType: string, name: Option<string>, path: string) returns (added: bool)
      modifies this
      ensures added == Accepts(old(files), name)
      ensures files == Registered(old(files), pathType, name, path)
      ensures models == old(models) && blenderSceneName == old(blenderSceneName)
    {
      if !Truthy(name) {
        return false;
      }
      if name.value in files {
        return false;
      }
      files := files[pathType + name.value := path];
      return true;
    }

    /** `FindFile`. */
    function FindFile(pathType: string, name: Option<string>): Option<string>
      reads this
    {
      Lookup(files, pathType, name)
    }

    /** `SortModels`: the models reordered along the name tree of (name, parent object name). */
    method SortModels()
      modifies this
      ensures models == Rearranged(Flatten(Built(old(models), ModelName, ParentName)), old(models), ModelName).taken
      ensures files == old(files) && blenderSceneName == old(blenderSceneName)
    {
      models := SortByHierarchy(models, ModelName, ParentName);
    }

    /** The content `UrhoWriteMaterialsList` writes for the model named `name`. */
    method MaterialsList(pathType: string, name: string) returns (content: Option<string>)
      ensures content == MaterialsListContent(models, files, pathType, name)
    {
      var i := FindFirst(models, ModelName, name);
      if i == |models| {
        return None;
      }
      var mats := models[i].materials;
      var text := "";
      var k := 0;
      while k < |mats|
        invariant 0 <= k <= |mats|
        invariant text == Terminated(MaterialLines(files, pathType, mats[..k]))
      {
        var file := FindFile(pathType, mats[k].name);
        if !Truthy(file) {
          file := Some("null");
        }
        assert mats[..k + 1][..k] == mats[..k];
        text := text + file.value + "\n";
        k := k + 1;
      }
      assert mats[..k] == mats;
      content := Some(text);
    }
  }
}

/** `utils/data_loader.py`: find the case files under the cases root,
    group them by module (the parent directory) and case name (the file's
    stem), and load either every case file or the ones a selection names,
    stamping each loaded case with its path relative to the root.

    A path relative to the root is the list of its components. What
    `rglob("*.yaml")` yields, in the order it yields them, is an input; so
    is reading and parsing a file, a `Reader` that answers the loaded case
    or the exception raised. */
module DataLoader {
  import opened Common
  import opened Strings
  import opened Lists
  import TestSuite

  /** A path relative to the cases root, one entry per component. */
  type RelPath = seq<string>

  /** Reading and parsing the YAML file at a path. */
  type Reader = RelPath -> Result<TestSuite.TestCase>

  const Ext: string := ".yaml"
  const CurrentDir: string := "."

  /** One item of a dict from module names to lists of case names. */
  datatype Entry = Entry(key: string, names: seq<string>)

  /** A Python dict from module names to lists of case names, as its items
      in insertion order. */
  type Dict = seq<Entry>

  function Keys(d: Dict): (r: seq<string>)
    ensures |r| == |d|
  {
    seq(|d|, i requires 0 <= i < |d| => d[i].key)
  }

  /** The list under `k`, or nothing when `k` is no key. */
  function Get(d: Dict, k: string): seq<string> {
    if d == [] then [] else if d[0].key == k then d[0].names else Get(d[1..], k)
  }

  predicate HasKey(d: Dict, k: string) {
    d != [] && (d[0].key == k || HasKey(d[1..], k))
  }

  /** `d[k] = v`: a new key goes last, an existing key keeps its place. */
  function Put(d: Dict, k: string, v: seq<string>): Dict {
    if d == [] then [Entry(k, v)]
    else if d[0].key == k then [Entry(k, v)] + d[1..]
    else [d[0]] + Put(d[1..], k, v)
  }

  /** `del d[k]`. */
  function Delete(d: Dict, k: string): Dict {
    if d == [] then [] else if d[0].key == k then d[1..] else [d[0]] + Delete(d[1..], k)
  }

  /** `rfind('.')`: the index of the last dot, or -1. */
  function LastDot(name: string): (i: int)
    ensures -1 <= i < |name|
  {
    if name == [] then -1 else if name[|name| - 1] == '.' then |name| - 1 else LastDot(name[..|name| - 1])
  }

  /** `Path.stem`: the name without its suffix. The suffix starts at the
      last dot, unless that dot begins or ends the name. */
  function Stem(name: string): string {
    var i := LastDot(name);
    if 0 < i < |name| - 1 then name[..i] else name
  }

  /** The directories of a path, and its last component. */
  function Dirs(p: RelPath): seq<string> {
    if p == [] then [] else p[..|p| - 1]
  }

  function Name(p: RelPath): string {
    if p == [] then "" else p[|p| - 1]
  }

  /** `parent.relative_to(base).as_posix()`: the directories joined by '/',
      or "." for a file directly under the root. */
  function ModuleOf(dirs: seq<string>): string {
    if dirs == [] then CurrentDir else Join(dirs, "/")
  }

  /** The components pathlib keeps: empty and "." components vanish. */
  function Components(parts: seq<string>): seq<string> {
    if parts == [] then []
    else (if parts[0] == "" || parts[0] == CurrentDir then [] else [parts[0]]) + Components(parts[1..])
  }

  /** `base / module / f"{name}.yaml"`, relative to the root. */
  function CasePath(moduleName: string, name: string): RelPath {
    Components(Split(moduleName, '/')) + [name + Ext]
  }

  /** `str(path.relative_to(base))`: the components joined by the Windows
      separator. */
  function MetaPath(p: RelPath): string {
    Join(p, [OsSep])
  }

  // ---------------------------------------------------------------- structure

  /** A path `rglob` can yield for a case file: directory names that are
      neither empty nor "." and hold no '/', and a file name made of a
      non-empty stem and ".yaml". */
  predicate CaseFile(p: RelPath) {
    && |p| >= 1
    && (forall i :: 0 <= i < |p| - 1 ==> p[i] != "" && p[i] != CurrentDir && '/' !in p[i])
    && |p[|p| - 1]| > |Ext| && p[|p| - 1][|p[|p| - 1]| - |Ext|..] == Ext
  }

  /** Adding one file to the structure: its module's list is created on the
      module's first file and the stem goes at its end. */
  function AddCase(d: Dict, moduleName: string, name: string): Dict {
    Put(d, moduleName, Get(d, moduleName) + [name])
  }

  /** What `get_case_structure` builds from the files in the order found. */
  function Structure(files: seq<RelPath>): Dict {
    if files == [] then []
    else
      var f := files[|files| - 1];
      AddCase(Structure(files[..|files| - 1]), ModuleOf(Dirs(f)), Stem(Name(f)))
  }

  /** Storing under a key and reading it back gives what was stored. */
  lemma {:induction false} GetPut(d: Dict, k: string, v: seq<string>)
    ensures Get(Put(d, k, v), k) == v
    ensures HasKey(Put(d, k, v), k)
  {
    if d != [] && d[0].key != k {
      GetPut(d[1..], k, v);
    }
  }

  /** A second store under the same key replaces the first. */
  lemma {:induction false} PutPut(d: Dict, k: string, v: seq<string>, w: seq<string>)
    ensures Put(Put(d, k, v), k, w) == Put(d, k, w)
  {
    if d != [] && d[0].key != k {
      PutPut(d[1..], k, v, w);
    }
  }

  /** A missing key reads as an empty list. */
  lemma {:induction false} GetMissing(d: Dict, k: string)
    requires !HasKey(d, k)
    ensures Get(d, k) == []
  {
    if d != [] {
      GetMissing(d[1..], k);
    }
  }

  /** Storing under one key leaves every other key as it was. */
  lemma {:induction false} PutOther(d: Dict, k: string, v: seq<string>, other: string)
    requires other != k
    ensures Get(Put(d, k, v), other) == Get(d, other)
    ensures HasKey(Put(d, k, v), other) <==> HasKey(d, other)
  {
    if d != [] && d[0].key != k {
      PutOther(d[1..], k, v, other);
    }
  }

  /** Storing what a key already holds changes nothing. */
  lemma {:induction false} PutSame(d: Dict, k: string)
    requires HasKey(d, k)
    ensures Put(d, k, Get(d, k)) == d
  {
    if d[0].key != k {
      PutSame(d[1..], k);
    }
  }

  /** Deleting a key that was just added restores the dict. */
  lemma {:induction false} DeleteNew(d: Dict, k: string, v: seq<string>)
    requires !HasKey(d, k)
    ensures Delete(Put(d, k, v), k) == d
  {
    if d != [] {
      DeleteNew(d[1..], k, v);
    }
  }

  /** Deleting after a store is deleting. */
  lemma {:induction false} DeletePut(d: Dict, k: string, v: seq<string>)
    requires HasKey(d, k)
    ensures Delete(Put(d, k, v), k) == Delete(d, k)
  {
    if d[0].key != k {
      DeletePut(d[1..], k, v);
    }
  }

  /** Deleting one key leaves every other key as it was. */
  lemma {:induction false} DeleteOther(d: Dict, k: string, other: string)
    requires other != k
    ensures Get(Delete(d, k), other) == Get(d, other)
    ensures HasKey(Delete(d, k), other) <==> HasKey(d, other)
  {
    if d != [] && d[0].key != k {
      DeleteOther(d[1..], k, other);
    }
  }

  /** The keys are the items' keys: a store keeps them or appends the new
      one, a delete removes the first. */
  lemma {:induction false} KeyIn(d: Dict, k: string)
    ensures HasKey(d, k) <==> k in Keys(d)
  {
    if d != [] {
      KeyIn(d[1..], k);
      assert Keys(d) == [d[0].key] + Keys(d[1..]);
    }
  }

  /** The keys of an entry followed by a dict. */
  lemma KeysCons(e: Entry, d: Dict)
    ensures Keys([e] + d) == [e.key] + Keys(d)
  {
    var l, r := Keys([e] + d), [e.key] + Keys(d);
    forall i | 0 <= i < |l|
      ensures l[i] == r[i]
    {
      if i > 0 {
        assert ([e] + d)[i] == d[i - 1];
      }
    }
  }

  lemma {:induction false} KeysPut(d: Dict, k: string, v: seq<string>)
    ensures Keys(Put(d, k, v)) == if HasKey(d, k) then Keys(d) else Keys(d) + [k]
  {
    if d != [] {
      assert d == [d[0]] + d[1..];
      KeysCons(d[0], d[1..]);
      KeyIn(d, k);
      KeyIn(d[1..], k);
      if d[0].key == k {
        KeysCons(Entry(k, v), d[1..]);
      } else {
        KeysPut(d[1..], k, v);
        KeysCons(d[0], Put(d[1..], k, v));
      }
    }
  }

  /** A store keeps a dict's keys free of repeats. */
  lemma PutKeepsDistinct(d: Dict, k: string, v: seq<string>)
    requires Distinct(Keys(d))
    ensures Distinct(Keys(Put(d, k, v)))
  {
    KeysPut(d, k, v);
    KeyIn(d, k);
    if !HasKey(d, k) {
      var ks := Keys(d) + [k];
      forall i, j | 0 <= i < j < |ks|
        ensures ks[i] != ks[j]
      {
        if j == |Keys(d)| {
          assert ks[i] == Keys(d)[i];
        }
      }
    }
  }

  lemma {:induction false} KeysDelete(d: Dict, k: string)
    requires HasKey(d, k)
    ensures k in Keys(d) && Keys(Delete(d, k)) == Remove(Keys(d), k)
  {
    KeyIn(d, k);
    assert d == [d[0]] + d[1..];
    KeysCons(d[0], d[1..]);
    if d[0].key != k {
      KeysDelete(d[1..], k);
      KeysCons(d[0], Delete(d[1..], k));
    }
  }

  /** In a dict whose keys do not repeat, a deleted key is gone. */
  lemma DeleteGone(d: Dict, k: string)
    requires Distinct(Keys(d)) && HasKey(d, k)
    ensures !HasKey(Delete(d, k), k) && Get(Delete(d, k), k) == []
  {
    KeysDelete(d, k);
    RemoveDistinct(Keys(d), k);
    KeyIn(Delete(d, k), k);
    GetMissing(Delete(d, k), k);
  }

  /** The structure is a dict: its module names do not repeat. */
  lemma {:induction false} StructureKeysDistinct(files: seq<RelPath>)
    ensures Distinct(Keys(Structure(files)))
    decreases |files|
  {
    if files != [] {
      var init := files[..|files| - 1];
      var f := files[|files| - 1];
      var before := Structure(init);
      var m := ModuleOf(Dirs(f));
      StructureKeysDistinct(init);
      PutKeepsDistinct(before, m, Get(before, m) + [Stem(Name(f))]);
    }
  }

  /** `get_case_structure`. */
  method GetCaseStructure(files: seq<RelPath>) returns (d: Dict)
    ensures d == Structure(files)
  {
    d := [];
    for i := 0 to |files|
      invariant d == Structure(files[..i])
    {
      var f := files[i];
      var moduleName := ModuleOf(Dirs(f));
      ghost var d0 := d;
      if !HasKey(d, moduleName) {
        GetMissing(d, moduleName);
        d := Put(d, moduleName, []);
        GetPut(d0, moduleName, []);
        PutPut(d0, moduleName, [], [] + [Stem(Name(f))]);
      }
      d := Put(d, moduleName, Get(d, moduleName) + [Stem(Name(f))]);
      assert files[..i + 1][..i] == files[..i];
    }
    assert files[..|files|] == files;
  }

  // ---------------------------------------------------------------- loading

  /** One case file loaded: the parsed case with `_meta.path` set, or the
      exception reading or parsing raised. */
  function LoadOne(p: RelPath, read: Reader): Result<TestSuite.TestCase> {
    match read(p)
    case Err(e) => Err(e)
    case Ok(tc) => Ok(tc.(path := MetaPath(p)))
  }

  /** Loading the files in order; the first exception ends the loading. */
  function LoadAll(paths: seq<RelPath>, read: Reader): Result<seq<TestSuite.TestCase>> {
    if paths == [] then Ok([])
    else
      match LoadAll(paths[..|paths| - 1], read)
      case Err(e) => Err(e)
      case Ok(cases) =>
        match LoadOne(paths[|paths| - 1], read)
        case Err(e) => Err(e)
        case Ok(c) => Ok(cases + [c])
  }

  /** Loading succeeds exactly when every file reads; it then gives one case
      per path, in order, each stamped with its own relative path. */
  lemma {:induction false} LoadAllOk(paths: seq<RelPath>, read: Reader)
    ensures LoadAll(paths, read).Ok? <==> forall i :: 0 <= i < |paths| ==> read(paths[i]).Ok?
    ensures LoadAll(paths, read).Ok? ==>
      var cases := LoadAll(paths, read).value;
      && |cases| == |paths|
      && forall i :: 0 <= i < |paths| ==> cases[i] == read(paths[i]).value.(path := MetaPath(paths[i]))
    decreases |paths|
  {
    if paths != [] {
      var init := paths[..|paths| - 1];
      LoadAllOk(init, read);
      assert forall i :: 0 <= i < |init| ==> init[i] == paths[i];
    }
  }

  /** A failed load reports the exception of the first file that does not
      read. */
  lemma {:induction false} LoadAllErr(paths: seq<RelPath>, read: Reader)
    ensures LoadAll(paths, read).Err? ==>
      exists i :: 0 <= i < |paths| && read(paths[i]) == Err(LoadAll(paths, read).error)
                  && forall k :: 0 <= k < i ==> read(paths[k]).Ok?
    decreases |paths|
  {
    if paths != [] {
      var init := paths[..|paths| - 1];
      LoadAllErr(init, read);
      LoadAllOk(init, read);
      assert forall i :: 0 <= i < |init| ==> init[i] == paths[i];
      if LoadAll(init, read).Err? {
        var i :| 0 <= i < |init| && read(init[i]) == Err(LoadAll(init, read).error)
                 && forall k :: 0 <= k < i ==> read(init[k]).Ok?;
        assert read(paths[i]) == Err(LoadAll(paths, read).error);
      }
    }
  }

  /** Once a prefix fails, the files after it are not read. */
  lemma {:induction false} LoadAllStops(paths: seq<RelPath>, read: Reader, m: nat)
    requires m <= |paths|
    requires LoadAll(paths[..m], read).Err?
    ensures LoadAll(paths, read) == LoadAll(paths[..m], read)
    decreases |paths|
  {
    if m < |paths| {
      var init := paths[..|paths| - 1];
      assert init[..m] == paths[..m];
      LoadAllStops(init, read, m);
    } else {
      assert paths[..m] == paths;
    }
  }

  /** The loading one path further on. */
  lemma LoadAllStep(paths: seq<RelPath>, read: Reader, i: nat)
    requires i < |paths|
    ensures LoadAll(paths[..i + 1], read)
         == match LoadAll(paths[..i], read)
            case Err(e) => Err(e)
            case Ok(cases) => (match LoadOne(paths[i], read) case Err(e) => Err(e) case Ok(c) => Ok(cases + [c]))
  {
    assert paths[..i + 1][..i] == paths[..i];
  }

  /** `load_independent_cases`: every case file, in the order found. */
  method LoadIndependentCases(files: seq<RelPath>, read: Reader) returns (r: Result<seq<TestSuite.TestCase>>)
    ensures r == LoadAll(files, read)
  {
    var cases := [];
    for i := 0 to |files|
      invariant LoadAll(files[..i], read) == Ok(cases)
    {
      LoadAllStep(files, read, i);
      var data := read(files[i]);
      if data.Err? {
        LoadAllStops(files, read, i + 1);
        return Err(data.error);
      }
      cases := cases + [data.value.(path := MetaPath(files[i]))];
    }
    assert files[..|files|] == files;
    return Ok(cases);
  }

  // ---------------------------------------------------------------- selection

  /** The paths of module `moduleName`'s selected names, in order. */
  function ModulePaths(moduleName: string, names: seq<string>): (r: seq<RelPath>)
    ensures |r| == |names|
  {
    seq(|names|, j requires 0 <= j < |names| => CasePath(moduleName, names[j]))
  }

  /** The paths of the selection, module by module in key order, and within
      a module in list order. */
  function SelectedPaths(d: Dict): seq<RelPath> {
    if d == [] then [] else ModulePaths(d[0].key, d[0].names) + SelectedPaths(d[1..])
  }

  lemma {:induction false} PathsAppend(a: Dict, b: Dict)
    ensures SelectedPaths(a + b) == SelectedPaths(a) + SelectedPaths(b)
  {
    if a != [] {
      PathsAppend(a[1..], b);
      assert (a + b)[1..] == a[1..] + b;
    } else {
      assert a + b == b;
    }
  }

  /** The selection one item further on. */
  lemma PathsSnoc(d: Dict, i: nat)
    requires i < |d|
    ensures SelectedPaths(d[..i + 1]) == SelectedPaths(d[..i]) + ModulePaths(d[i].key, d[i].names)
  {
    PathsAppend(d[..i], [d[i]]);
    assert d[..i + 1] == d[..i] + [d[i]];
    PathsOne(d[i]);
  }

  lemma PathsOne(e: Entry)
    ensures SelectedPaths([e]) == ModulePaths(e.key, e.names)
  {
    assert [e][1..] == [];
  }

  /** The selection's paths begin with those of its first items. */
  lemma {:induction false} PathsSplit(d: Dict, n: nat)
    requires n <= |d|
    ensures SelectedPaths(d) == SelectedPaths(d[..n]) + SelectedPaths(d[n..])
    decreases n
  {
    if n == 0 {
      assert d[..0] == [] && d[0..] == d;
    } else {
      var head, tail := d[..n], d[1..];
      PathsSplit(tail, n - 1);
      assert head[0] == d[0] && head[1..] == tail[..n - 1];
      assert tail[n - 1..] == d[n..];
      assert SelectedPaths(head) == ModulePaths(d[0].key, d[0].names) + SelectedPaths(tail[..n - 1]);
    }
  }

  /** Loading one more path after the others. */
  lemma LoadSnoc(paths: seq<RelPath>, p: RelPath, read: Reader)
    ensures LoadAll(paths + [p], read)
         == match LoadAll(paths, read)
            case Err(e) => Err(e)
            case Ok(cases) => (match LoadOne(p, read) case Err(e) => Err(e) case Ok(c) => Ok(cases + [c]))
  {
    assert (paths + [p])[..|paths|] == paths;
  }

  /** A load that fails stays failed, whatever follows. */
  lemma LoadErrExtends(paths: seq<RelPath>, rest: seq<RelPath>, read: Reader)
    requires LoadAll(paths, read).Err?
    ensures LoadAll(paths + rest, read) == LoadAll(paths, read)
  {
    assert (paths + rest)[..|paths|] == paths;
    LoadAllStops(paths + rest, read, |paths|);
  }

  /** One more path loaded after a successful load: its exception, or
      its case after the others. */
  lemma LoadNext(before: seq<RelPath>, path: RelPath, read: Reader, cases: seq<TestSuite.TestCase>)
    requires LoadAll(before, read) == Ok(cases)
    ensures read(path).Err? ==> LoadAll(before + [path], read) == Err(read(path).error)
    ensures read(path).Ok? ==>
      LoadAll(before + [path], read) == Ok(cases + [read(path).value.(path := MetaPath(path))])
  {
    LoadSnoc(before, path, read);
  }

  /** Name `j` of a module loaded after the cases loaded so far: its
      exception ends the whole loading, or its case joins the others. */
  lemma ModuleStep(done0: seq<RelPath>, moduleName: string, names: seq<string>, read: Reader, j: nat,
                   cases: seq<TestSuite.TestCase>)
    requires j < |names|
    requires LoadAll(done0 + ModulePaths(moduleName, names[..j]), read) == Ok(cases)
    ensures var path := CasePath(moduleName, names[j]);
      && (read(path).Err? ==> LoadAll(done0 + ModulePaths(moduleName, names), read) == Err(read(path).error))
      && (read(path).Ok? ==>
            LoadAll(done0 + ModulePaths(moduleName, names[..j + 1]), read)
            == Ok(cases + [read(path).value.(path := MetaPath(path))]))
  {
    var path := CasePath(moduleName, names[j]);
    var before := done0 + ModulePaths(moduleName, names[..j]);
    var upto := done0 + ModulePaths(moduleName, names[..j + 1]);
    ModuleSnoc(done0, moduleName, names, j);
    LoadNext(before, path, read, cases);
    if read(path).Err? {
      var rest := ModulePaths(moduleName, names[j + 1..]);
      ModuleRest(done0, moduleName, names, j + 1);
      LoadErrExtends(upto, rest, read);
    }
  }

  /** The paths up to name `j` of a module, after those loaded before. */
  lemma ModuleSnoc(done0: seq<RelPath>, moduleName: string, names: seq<string>, j: nat)
    requires j < |names|
    ensures done0 + ModulePaths(moduleName, names[..j + 1])
         == done0 + ModulePaths(moduleName, names[..j]) + [CasePath(moduleName, names[j])]
  {
    ModulePathsSplit(moduleName, names[..j + 1], j);
    assert names[..j + 1][..j] == names[..j] && names[..j + 1][j..] == [names[j]];
  }

  /** All of a module's paths: those up to name `k`, then the rest. */
  lemma ModuleRest(done0: seq<RelPath>, moduleName: string, names: seq<string>, k: nat)
    requires k <= |names|
    ensures done0 + ModulePaths(moduleName, names)
         == done0 + ModulePaths(moduleName, names[..k]) + ModulePaths(moduleName, names[k..])
  {
    ModulePathsSplit(moduleName, names, k);
  }

  /** A module's paths split where its names split. */
  lemma ModulePathsSplit(moduleName: string, names: seq<string>, k: nat)
    requires k <= |names|
    ensures ModulePaths(moduleName, names) == ModulePaths(moduleName, names[..k]) + ModulePaths(moduleName, names[k..])
  {
  }

  /** One module's names loaded as `module/name.yaml`, after the cases
      loaded so far. */
  method LoadModule(moduleName: string, names: seq<string>, read: Reader, ghost done0: seq<RelPath>,
                    cases0: seq<TestSuite.TestCase>) returns (r: Result<seq<TestSuite.TestCase>>)
    requires LoadAll(done0, read) == Ok(cases0)
    ensures r == LoadAll(done0 + ModulePaths(moduleName, names), read)
  {
    assert done0 + ModulePaths(moduleName, names[..0]) == done0;
    var cases := cases0;
    for j := 0 to |names|
      invariant LoadAll(done0 + ModulePaths(moduleName, names[..j]), read) == Ok(cases)
    {
      var path := CasePath(moduleName, names[j]);
      ModuleStep(done0, moduleName, names, read, j, cases);
      var data := read(path);
      if data.Err? {
        return Err(data.error);
      }
      cases := cases + [data.value.(path := MetaPath(path))];
    }
    assert names[..|names|] == names;
    return Ok(cases);
  }

  /** `generate_selected_cases`: the selected names' files, module by
      module. */
  method GenerateSelectedCases(selected: Dict, read: Reader) returns (r: Result<seq<TestSuite.TestCase>>)
    ensures r == LoadAll(SelectedPaths(selected), read)
  {
    ghost var all := SelectedPaths(selected);
    var cases := [];
    for i := 0 to |selected|
      invariant LoadAll(SelectedPaths(selected[..i]), read) == Ok(cases)
    {
      ghost var done := SelectedPaths(selected[..i]);
      PathsSnoc(selected, i);
      PathsSplit(selected, i + 1);
      var loaded := LoadModule(selected[i].key, selected[i].names, read, done, cases);
      ghost var next := SelectedPaths(selected[..i + 1]);
      if loaded.Err? {
        assert all[..|next|] == next;
        LoadAllStops(all, read, |next|);
        return loaded;
      }
      cases := loaded.value;
    }
    assert selected[..|selected|] == selected;
    return Ok(cases);
  }

  /** Adding one name to a module's list adds exactly its path to the
      selection's paths. */
  lemma {:induction false} AddCasePaths(d: Dict, m: string, n: string)
    ensures multiset(SelectedPaths(AddCase(d, m, n))) == multiset(SelectedPaths(d)) + multiset{CasePath(m, n)}
  {
    if d == [] {
      assert ModulePaths(m, [n]) == [CasePath(m, n)];
    } else if d[0].key == m {
      assert ModulePaths(m, d[0].names + [n]) == ModulePaths(m, d[0].names) + [CasePath(m, n)];
    } else {
      AddCasePaths(d[1..], m, n);
    }
  }

  /** Splitting the module name of a case file's directories gives back the
      directories. */
  lemma ModuleParts(dirs: seq<string>)
    requires forall i :: 0 <= i < |dirs| ==> dirs[i] != "" && dirs[i] != CurrentDir && '/' !in dirs[i]
    ensures Components(Split(ModuleOf(dirs), '/')) == dirs
  {
    if dirs == [] {
      SplitWithoutSeparator(CurrentDir, '/');
    } else {
      SplitJoin(dirs, '/');
      KeptComponents(dirs);
    }
  }

  lemma {:induction false} KeptComponents(parts: seq<string>)
    requires forall i :: 0 <= i < |parts| ==> parts[i] != "" && parts[i] != CurrentDir
    ensures Components(parts) == parts
    decreases |parts|
  {
    if parts != [] {
      KeptComponents(parts[1..]);
    }
  }

  /** A file name of a non-empty stem and ".yaml" has that stem. */
  lemma StemOfCaseName(name: string)
    requires |name| > |Ext| && name[|name| - |Ext|..] == Ext
    ensures Stem(name) + Ext == name
  {
    var k := |name| - |Ext|;
    assert name[k..] == Ext;
    var n4 := name[..k + 1];
    var n3 := name[..k + 2];
    var n2 := name[..k + 3];
    var n1 := name[..k + 4];
    assert n4[k] == '.' && LastDot(n4) == k;
    assert n3[k + 1] == 'y' && n3[..k + 1] == n4 && LastDot(n3) == k;
    assert n2[k + 2] == 'a' && n2[..k + 2] == n3 && LastDot(n2) == k;
    assert n1[k + 3] == 'm' && n1[..k + 3] == n2 && LastDot(n1) == k;
    assert name[k + 4] == 'l' && name[..k + 4] == n1;
    assert LastDot(name) == k;
  }

  /** The path `generate_selected_cases` rebuilds from a case file's module
      and name is the file's own path. */
  lemma CasePathRoundTrip(p: RelPath)
    requires CaseFile(p)
    ensures CasePath(ModuleOf(Dirs(p)), Stem(Name(p))) == p
  {
    var dirs, name := Dirs(p), Name(p);
    ModuleParts(dirs);
    StemOfCaseName(name);
    assert p == dirs + [name];
  }

  /** The path rebuilt from a file's module and stem. */
  function Rebuilt(f: RelPath): RelPath {
    CasePath(ModuleOf(Dirs(f)), Stem(Name(f)))
  }

  /** Selecting the whole structure of the case files found and generating
      the selection loads each of those files exactly once. */
  lemma SelectAllLoadsEachFile(files: seq<RelPath>)
    requires forall i :: 0 <= i < |files| ==> CaseFile(files[i])
    ensures multiset(SelectedPaths(Structure(files))) == multiset(files)
  {
    forall i | 0 <= i < |files|
      ensures Rebuilt(files[i]) == files[i]
    {
      CasePathRoundTrip(files[i]);
    }
    StructurePaths(files);
  }

  lemma LastIn<T>(s: seq<T>)
    requires s != []
    ensures multiset(s) == multiset(s[..|s| - 1]) + multiset{s[|s| - 1]}
  {
    assert s == s[..|s| - 1] + [s[|s| - 1]];
  }

  lemma {:induction false} StructurePaths(files: seq<RelPath>)
    requires forall i :: 0 <= i < |files| ==> Rebuilt(files[i]) == files[i]
    ensures multiset(SelectedPaths(Structure(files))) == multiset(files)
    decreases |files|
  {
    if files != [] {
      var init := files[..|files| - 1];
      var f := files[|files| - 1];
      var before := Structure(init);
      var m, n := ModuleOf(Dirs(f)), Stem(Name(f));
      assert Rebuilt(f) == f;
      calc {
        multiset(SelectedPaths(Structure(files)));
        multiset(SelectedPaths(AddCase(before, m, n)));
        { AddCasePaths(before, m, n); }
        multiset(SelectedPaths(before)) + multiset{CasePath(m, n)};
        { StructurePaths(init); }
        multiset(init) + multiset{f};
        { LastIn(files); }
        multiset(files);
      }
    }
  }
}

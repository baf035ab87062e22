/**
 * The static `getAvailableManagers` of cacheDependencyManagers/
 * cacheDependencyManager.js: the files of the managers directory are
 * matched against `/(\S+)Config\.js/`; each match maps the captured name to
 * `path.join(dirname, file)`. The map is computed once and kept.
 *
 * The regular expression is modelled by its backtracking semantics: the
 * leftmost start position that admits a match wins, and at that position
 * the greedy `\S+` gives up characters from the right until `Config.js`
 * follows it.
 */
module AvailableManagers {
  import opened Wrappers
  import opened Text
  import opened Paths

  const Suffix: string := "Config.js"

  /** `Config.js` occurs in `s` at position `k`. */
  predicate SuffixAt(s: string, k: int) {
    0 <= k && k + |Suffix| <= |s| && s[k..k + |Suffix|] == Suffix
  }

  /** End of the run of non-white-space characters that starts at `i`. */
  function RunEnd(s: string, i: nat): (e: nat)
    requires i <= |s|
    ensures i <= e <= |s|
    ensures forall j :: i <= j < e ==> !IsJsWhitespace(s[j])
    ensures e < |s| ==> IsJsWhitespace(s[e])
    decreases |s| - i
  {
    if i == |s| || IsJsWhitespace(s[i]) then i else RunEnd(s, i + 1)
  }

  /** Backtracking of the greedy `\S+` that started at `i`: the largest end
    * `e` with `i < e <= k` that `Config.js` follows. */
  function Greedy(s: string, i: nat, k: nat): (r: Option<nat>)
    requires i <= k <= |s|
    ensures r.Some? ==> i < r.value <= k && SuffixAt(s, r.value)
    ensures r.Some? ==> forall j :: r.value < j <= k ==> !SuffixAt(s, j)
    ensures r.None? ==> forall j :: i < j <= k ==> !SuffixAt(s, j)
    decreases k
  {
    if k == i then None
    else if SuffixAt(s, k) then Some(k)
    else Greedy(s, i, k - 1)
  }

  /** The capture of the leftmost match that starts at `i` or later. */
  function MatchFrom(s: string, i: nat): (r: Option<string>)
    requires i <= |s|
    ensures r.Some? ==> r.value != [] && NoWhitespace(r.value)
    ensures r.Some? ==> exists j :: CapturedAt(s, j, r.value)
    decreases |s| - i
  {
    if i == |s| then None
    else
      match Greedy(s, i, RunEnd(s, i))
      case Some(e) =>
        assert CapturedAt(s, i, s[i..e]);
        Some(s[i..e])
      case None => MatchFrom(s, i + 1)
  }

  /** `n` sits at position `j` of `s`, followed by `Config.js`. */
  predicate CapturedAt(s: string, j: int, n: string) {
    0 <= j && j + |n| <= |s| && s[j..j + |n|] == n && SuffixAt(s, j + |n|)
  }

  /** `managerRegex.exec(file)[1]`, or `None` when `exec` returns `null`. */
  function ManagerName(file: string): Option<string> {
    MatchFrom(file, 0)
  }

  /** A file named `N + "Config.js"`, with `N` non-empty and free of white
    * space, gives the manager name `N`. */
  lemma NameOfConfigFile(n: string)
    requires n != [] && NoWhitespace(n)
    ensures ManagerName(n + Suffix) == Some(n)
  {
    var s := n + Suffix;
    assert s[..|n|] == n && s[|n|..] == Suffix;
    assert NoWhitespace(s) by {
      forall j | 0 <= j < |s| ensures !IsJsWhitespace(s[j]) {
        if j >= |n| {
          assert s[j] == Suffix[j - |n|];
        }
      }
    }
    var e := RunEnd(s, 0);
    assert e == |s|;
    assert SuffixAt(s, |n|);
    var g := Greedy(s, 0, e);
    assert g == Some(|n|);
  }

  /** A file name matches exactly when `Config.js` occurs in it after a
    * non-white-space character. */
  lemma MatchesIff(s: string)
    ensures ManagerName(s).Some? <==> exists k :: 0 < k && SuffixAt(s, k) && !IsJsWhitespace(s[k - 1])
  {
    if k :| 0 < k && SuffixAt(s, k) && !IsJsWhitespace(s[k - 1]) {
      SuffixMatches(s, k);
    }
    if ManagerName(s).Some? {
      MatchHasSuffix(s);
    }
  }

  lemma SuffixMatches(s: string, k: int)
    requires 0 < k && SuffixAt(s, k) && !IsJsWhitespace(s[k - 1])
    ensures ManagerName(s).Some?
  {
    LastStartMatches(s, k - 1, k);
    NoMatchPasses(s, 0, k - 1);
  }

  lemma MatchHasSuffix(s: string)
    requires ManagerName(s).Some?
    ensures exists k :: 0 < k && SuffixAt(s, k) && !IsJsWhitespace(s[k - 1])
  {
    var n := ManagerName(s).value;
    var j :| CapturedAt(s, j, n);
    var k := j + |n|;
    assert s[k - 1] == n[|n| - 1];
  }

  /** A scan from `i` that finds no match passes every later start `j`
    * with a greedy run that finds no `Config.js`. */
  lemma NoMatchPasses(s: string, i: nat, j: nat)
    requires i <= j < |s|
    ensures MatchFrom(s, i).None? ==> Greedy(s, j, RunEnd(s, j)).None?
  {
    if MatchFrom(s, i).None? {
      NoMatchFrom(s, i, j);
    }
  }

  lemma {:induction false} NoMatchFrom(s: string, i: nat, j: nat)
    requires i <= j < |s| && MatchFrom(s, i).None?
    ensures Greedy(s, j, RunEnd(s, j)).None?
    decreases j - i
  {
    MatchFromStep(s, i);
    if i < j {
      NoMatchFrom(s, i + 1, j);
    }
  }

  /** One step of the leftward scan that `exec` performs. */
  lemma MatchFromStep(s: string, i: nat)
    requires i < |s|
    ensures Greedy(s, i, RunEnd(s, i)).Some? ==> MatchFrom(s, i).Some?
    ensures Greedy(s, i, RunEnd(s, i)).None? ==> MatchFrom(s, i) == MatchFrom(s, i + 1)
  {
  }

  /** A start right before `Config.js` that is not white space matches. */
  lemma LastStartMatches(s: string, i: nat, k: int)
    requires i == k - 1 && SuffixAt(s, k) && !IsJsWhitespace(s[i])
    ensures Greedy(s, i, RunEnd(s, i)).Some?
  {
    RunEndPasses(s, i);
  }

  /** A run that starts at a non-white-space character is not empty. */
  lemma RunEndPasses(s: string, i: nat)
    requires i < |s| && !IsJsWhitespace(s[i])
    ensures i < RunEnd(s, i)
  {
  }

  /** The map the `forEach` builds over the listing: each matching file
    * sets its manager name to its joined path, later files overriding
    * earlier ones. */
  function ManagersIn(dirname: string, files: seq<string>): map<string, string> {
    Collect(dirname, files, ManagerName)
  }

  /** The same fold for any way `name` of reading a name off a file. */
  function Collect(dirname: string, files: seq<string>, name: string -> Option<string>): map<string, string> {
    if files == [] then map[]
    else
      var m := Collect(dirname, files[..|files| - 1], name);
      var f := files[|files| - 1];
      match name(f)
      case Some(n) => m[n := Join(dirname, f)]
      case None => m
  }

  /** The keys are exactly the names of the matching files. */
  lemma ManagersKeys(dirname: string, files: seq<string>)
    ensures forall n :: n in ManagersIn(dirname, files) <==>
      exists j :: 0 <= j < |files| && ManagerName(files[j]) == Some(n)
  {
    CollectKeys(dirname, files, ManagerName);
  }

  lemma {:induction false} CollectKeys(dirname: string, files: seq<string>, name: string -> Option<string>)
    ensures forall n :: n in Collect(dirname, files, name) <==>
      exists j :: 0 <= j < |files| && name(files[j]) == Some(n)
  {
    if files != [] {
      var init := files[..|files| - 1];
      CollectKeys(dirname, init, name);
      forall n ensures n in Collect(dirname, files, name) <==>
        exists j :: 0 <= j < |files| && name(files[j]) == Some(n)
      {
        if j :| 0 <= j < |init| && name(init[j]) == Some(n) {
          assert files[j] == init[j];
        }
        if j :| 0 <= j < |files| && name(files[j]) == Some(n) {
          if j < |init| {
            assert init[j] == files[j];
          }
        }
      }
    }
  }

  /** Each name maps to the joined path of the LAST file with that name. */
  lemma ManagersValue(dirname: string, files: seq<string>, j: int)
    requires 0 <= j < |files| && ManagerName(files[j]).Some?
    requires forall i :: j < i < |files| ==> ManagerName(files[i]) != ManagerName(files[j])
    ensures ManagerName(files[j]).value in ManagersIn(dirname, files)
    ensures ManagersIn(dirname, files)[ManagerName(files[j]).value] == Join(dirname, files[j])
  {
    CollectValue(dirname, files, ManagerName, j);
  }

  lemma {:induction false} CollectValue(dirname: string, files: seq<string>, name: string -> Option<string>, j: int)
    requires 0 <= j < |files| && name(files[j]).Some?
    requires forall i :: j < i < |files| ==> name(files[i]) != name(files[j])
    ensures name(files[j]).value in Collect(dirname, files, name)
    ensures Collect(dirname, files, name)[name(files[j]).value] == Join(dirname, files[j])
  {
    if j < |files| - 1 {
      var init := files[..|files| - 1];
      assert init[j] == files[j];
      CollectValue(dirname, init, name, j);
    }
  }

  /** A file named `N + "Config.js"` that no later file of the listing
    * shadows yields the entry `N -> path.join(dirname, file)`. */
  lemma ConfigFileEntry(dirname: string, files: seq<string>, j: int, n: string)
    requires n != [] && NoWhitespace(n)
    requires 0 <= j < |files| && files[j] == n + Suffix
    requires forall i :: j < i < |files| ==> ManagerName(files[i]) != Some(n)
    ensures n in ManagersIn(dirname, files) && ManagersIn(dirname, files)[n] == Join(dirname, files[j])
  {
    NameOfConfigFile(n);
    ManagersValue(dirname, files, j);
  }

  /** A file that does not match adds no entry. */
  lemma NonMatchingAddsNothing(dirname: string, files: seq<string>, f: string)
    requires ManagerName(f).None?
    ensures ManagersIn(dirname, files + [f]) == ManagersIn(dirname, files)
  {
    assert (files + [f])[..|files|] == files;
  }

  /** `CacheDependencyManager.managers`: `None` until the first call. */
  class Registry {
    var managers: Option<map<string, string>>

    constructor ()
      ensures managers == None
    {
      managers := None;
    }

    /** `getAvailableManagers()`, given the directory and what
      * `fs.readdirSync` lists in it. Only the first call reads the listing. */
    method GetAvailableManagers(dirname: string, listing: seq<string>) returns (r: map<string, string>)
      modifies this
      ensures old(managers).Some? ==> r == old(managers).value && managers == old(managers)
      ensures old(managers).None? ==> r == ManagersIn(dirname, listing) && managers == Some(r)
    {
      if managers == None {
        var m: map<string, string> := map[];
        var i := 0;
        while i < |listing|
          invariant 0 <= i <= |listing|
          invariant m == ManagersIn(dirname, listing[..i])
        {
          var file := listing[i];
          assert listing[..i + 1][..i] == listing[..i];
          var result := ManagerName(file);
          if result != None {
            var managerName := result.value;
            m := m[managerName := Join(dirname, file)];
          }
          i := i + 1;
        }
        assert listing[..|listing|] == listing;
        managers := Some(m);
      }
      r := managers.value;
    }
  }

  /** Calling twice returns the same map, whatever the second listing is. */
  method TwoCalls(dirname: string, first: seq<string>, second: seq<string>) returns (a: map<string, string>, b: map<string, string>)
    ensures a == b == ManagersIn(dirname, first)
  {
    var registry := new Registry();
    a := registry.GetAvailableManagers(dirname, first);
    b := registry.GetAvailableManagers(dirname, second);
  }
}

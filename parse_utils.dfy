/**
 * Splitting the command line (util/parseUtils.js). `getNpmCacheArgs` keeps
 * the arguments before the first manager name; `getManagerArgs` groups the
 * later arguments under the most recent manager name, or falls back to the
 * default managers when no manager is named.
 *
 * Both test a name with JavaScript's `in` on the object of available
 * managers; `names` is the set of strings for which that test holds.
 */
module ParseUtils {
  import opened Wrappers

  /** `process.argv.slice(n)`. */
  function Slice(argv: seq<string>, n: nat): (r: seq<string>)
    ensures |argv| <= n ==> r == []
    ensures n < |argv| ==> |r| == |argv| - n
    ensures forall i :: 0 <= i < |r| ==> n + i < |argv| && r[i] == argv[n + i]
  {
    if |argv| <= n then [] else argv[n..]
  }

  // ---------------------------------------------------------------------
  // Which names the `in` test accepts

  /** The properties every plain object inherits from `Object.prototype`. */
  const PrototypeNames: set<string> := {
    "constructor", "__defineGetter__", "__defineSetter__", "hasOwnProperty",
    "__lookupGetter__", "__lookupSetter__", "isPrototypeOf", "propertyIsEnumerable",
    "toString", "valueOf", "__proto__", "toLocaleString" }

  /** As written: `name in availableManagers` also holds for inherited
    * property names. */
  function InNames(available: map<string, string>): (r: set<string>)
    ensures available.Keys <= r && "toString" in r && "constructor" in r
  {
    available.Keys + PrototypeNames
  }

  /** As intended: only the managers found on disk. */
  function OwnNames(available: map<string, string>): (r: set<string>)
    ensures forall name :: name in r <==> name in available
  {
    available.Keys
  }

  // ---------------------------------------------------------------------
  // getNpmCacheArgs

  /** `r` is the prefix of `args` before the first element of `names`. */
  predicate IsCacheArgs(args: seq<string>, names: set<string>, r: seq<string>) {
    && r <= args
    && (forall i :: 0 <= i < |r| ==> r[i] !in names)
    && (|r| < |args| ==> args[|r|] in names)
  }

  /** The longest prefix of `args` without a manager name. */
  function LeadingArgs(args: seq<string>, names: set<string>): (r: seq<string>)
    ensures IsCacheArgs(args, names, r)
  {
    if args == [] || args[0] in names then [] else [args[0]] + LeadingArgs(args[1..], names)
  }

  /** Exactly one prefix has that property. */
  lemma CacheArgsUnique(args: seq<string>, names: set<string>, r1: seq<string>, r2: seq<string>)
    requires IsCacheArgs(args, names, r1) && IsCacheArgs(args, names, r2)
    ensures r1 == r2
  {
    assert r1 == args[..|r1|] && r2 == args[..|r2|];
  }

  /** `getNpmCacheArgs()`, given `process.argv`. */
  method NpmCacheArgs(argv: seq<string>, names: set<string>) returns (npmCacheArgs: seq<string>)
    ensures npmCacheArgs == LeadingArgs(Slice(argv, 2), names)
  {
    npmCacheArgs := [];
    var allArguments := Slice(argv, 2);
    var i := 0;
    while i < |allArguments|
      invariant 0 <= i <= |allArguments|
      invariant npmCacheArgs == allArguments[..i]
      invariant forall j :: 0 <= j < i ==> allArguments[j] !in names
    {
      var currArgument := allArguments[i];
      if currArgument in names {
        break;
      } else {
        npmCacheArgs := npmCacheArgs + [currArgument];
      }
      i := i + 1;
    }
    CacheArgsUnique(allArguments, names, npmCacheArgs, LeadingArgs(allArguments, names));
  }

  /** The example in the doc comment of `getNpmCacheArgs`:
    * `npm-cache --forceRefresh --cacheDirectory /tmp bower --allow-root`. */
  lemma CacheArgsExample(names: set<string>)
    requires "bower" in names
    requires "--forceRefresh" !in names && "--cacheDirectory" !in names && "/tmp" !in names
    ensures LeadingArgs(["--forceRefresh", "--cacheDirectory", "/tmp", "bower", "--allow-root"], names)
      == ["--forceRefresh", "--cacheDirectory", "/tmp"]
  {
    var args := ["--forceRefresh", "--cacheDirectory", "/tmp", "bower", "--allow-root"];
    var r := ["--forceRefresh", "--cacheDirectory", "/tmp"];
    assert IsCacheArgs(args, names, r);
    CacheArgsUnique(args, names, r, LeadingArgs(args, names));
  }

  /** With the intended test, the arguments stop exactly at the first
    * available manager's name. */
  lemma OwnNamesCutAtManager(args: seq<string>, available: map<string, string>)
    ensures var r := LeadingArgs(args, OwnNames(available));
      && r <= args
      && (forall i :: 0 <= i < |r| ==> r[i] !in available)
      && (|r| < |args| ==> args[|r|] in available)
  {
  }

  /** As written, an option value that happens to be an inherited property
    * name, such as a cache directory called `constructor`, ends the
    * npm-cache arguments; with the intended test it is kept. */
  lemma PrototypeNameCutsArgs(available: map<string, string>)
    requires "constructor" !in available && "--cacheDirectory" !in available
    ensures LeadingArgs(["--cacheDirectory", "constructor"], InNames(available)) == ["--cacheDirectory"]
    ensures LeadingArgs(["--cacheDirectory", "constructor"], OwnNames(available)) == ["--cacheDirectory", "constructor"]
  {
    var args := ["--cacheDirectory", "constructor"];
    assert "--cacheDirectory" !in PrototypeNames;
    assert IsCacheArgs(args, InNames(available), ["--cacheDirectory"]);
    CacheArgsUnique(args, InNames(available), ["--cacheDirectory"], LeadingArgs(args, InNames(available)));
    assert IsCacheArgs(args, OwnNames(available), args);
    CacheArgsUnique(args, OwnNames(available), args, LeadingArgs(args, OwnNames(available)));
  }

  // ---------------------------------------------------------------------
  // getManagerArgs

  /** The `managers` object and `currManager` while the arguments are read. */
  datatype Grouping = Grouping(managers: map<string, string>, current: Option<string>)

  /** The grouping after the `forEach` has read `args`: a manager name
    * starts (or restarts) the manager's string at `''`; any other argument
    * is appended, followed by a space, to the current manager's string. */
  function Group(args: seq<string>, names: set<string>): (g: Grouping)
    ensures g.current.Some? ==> g.current.value in g.managers
  {
    if args == [] then Grouping(map[], None)
    else
      var g := Group(args[..|args| - 1], names);
      var a := args[|args| - 1];
      if a in names then Grouping(g.managers[a := ""], Some(a))
      else if g.current.Some? then
        Grouping(g.managers[g.current.value := g.managers[g.current.value] + a + " "], g.current)
      else g
  }

  /** The arguments each followed by a space. */
  function Joined(xs: seq<string>): string {
    if xs == [] then "" else Joined(xs[..|xs| - 1]) + xs[|xs| - 1] + " "
  }

  /** The index of the last occurrence of `x` in `xs`, or -1. */
  function LastIndex(xs: seq<string>, x: string): (i: int)
    ensures -1 <= i < |xs|
  {
    if xs == [] then -1
    else if xs[|xs| - 1] == x then |xs| - 1
    else LastIndex(xs[..|xs| - 1], x)
  }

  /** `LastIndex` finds `x` exactly when it occurs, and no later element is `x`. */
  lemma {:induction false} LastIndexSpec(xs: seq<string>, x: string)
    ensures var i := LastIndex(xs, x);
      && (i >= 0 <==> x in xs)
      && (i >= 0 ==> xs[i] == x)
      && (forall j :: i < j < |xs| ==> xs[j] != x)
  {
    if xs != [] && xs[|xs| - 1] != x {
      var init := xs[..|xs| - 1];
      LastIndexSpec(init, x);
      assert xs == init + [xs[|xs| - 1]];
    }
  }

  /** The keys are exactly the manager names that occur in the arguments. */
  lemma {:induction false} GroupKeys(args: seq<string>, names: set<string>)
    ensures forall k :: k in Group(args, names).managers <==> k in names && k in args
  {
    if args != [] {
      var init := args[..|args| - 1];
      GroupKeys(init, names);
      assert args == init + [args[|args| - 1]];
    }
  }

  /** `currManager` is the last manager name read, and no manager name
    * follows its last occurrence; it is `null` while no name has occurred. */
  lemma {:induction false} GroupCurrent(args: seq<string>, names: set<string>)
    ensures var g := Group(args, names);
      && (g.current.None? ==> forall i :: 0 <= i < |args| ==> args[i] !in names)
      && (g.current.Some? ==> g.current.value in names && g.current.value in args)
      && (g.current.Some? ==> forall i :: LastIndex(args, g.current.value) < i < |args| ==> args[i] !in names)
  {
    if args != [] {
      var init := args[..|args| - 1];
      var a := args[|args| - 1];
      GroupCurrent(init, names);
      assert args == init + [a];
      var g := Group(init, names);
      if a !in names && g.current.Some? {
        assert LastIndex(args, g.current.value) == LastIndex(init, g.current.value);
      }
    }
  }

  /** Appending one argument to a list and taking the arguments before the
    * first manager name. */
  lemma {:induction false} LeadingAppend(xs: seq<string>, a: string, names: set<string>)
    ensures LeadingArgs(xs + [a], names) ==
      if LeadingArgs(xs, names) == xs && a !in names then xs + [a] else LeadingArgs(xs, names)
  {
    if xs != [] {
      assert (xs + [a])[1..] == xs[1..] + [a];
      LeadingAppend(xs[1..], a, names);
    }
  }

  /** The string a manager would get from `args`: the arguments after its
    * last occurrence, up to the next manager name, each followed by a space. */
  function ValueOf(args: seq<string>, names: set<string>, k: string): string {
    Joined(LeadingArgs(args[LastIndex(args, k) + 1..], names))
  }

  /** Each manager's string is the arguments between its last occurrence and
    * the next manager name, each followed by a space: a repeated name
    * restarts its string, and arguments of other managers never leak in. */
  lemma {:induction false} GroupValues(args: seq<string>, names: set<string>)
    ensures var g := Group(args, names);
      forall k :: k in g.managers ==> g.managers[k] == ValueOf(args, names, k)
  {
    if args != [] {
      GroupValues(args[..|args| - 1], names);
      var g := Group(args, names);
      forall k | k in g.managers
        ensures g.managers[k] == ValueOf(args, names, k)
      {
        GroupValueStep(args, names, k);
      }
    }
  }

  /** One step of `GroupValues`: reading the last argument. */
  lemma GroupValueStep(args: seq<string>, names: set<string>, k: string)
    requires args != [] && k in Group(args, names).managers
    requires var init := args[..|args| - 1];
      forall k :: k in Group(init, names).managers ==> Group(init, names).managers[k] == ValueOf(init, names, k)
    ensures Group(args, names).managers[k] == ValueOf(args, names, k)
  {
    var init, a := args[..|args| - 1], args[|args| - 1];
    var g0 := Group(init, names);
    GroupKeys(init, names);
    GroupCurrent(init, names);
    if a in names {
      if k == a {
        StepNamed(args, names);
      } else {
        StepKept(args, names, k);
      }
    } else if g0.current.Some? {
      if g0.current.value == k {
        StepExtended(args, names, k);
      } else {
        OtherNameAfter(init, names, k, g0.current.value);
        StepKept(args, names, k);
      }
    }
  }

  /** A manager name restarts its own string. */
  lemma StepNamed(args: seq<string>, names: set<string>)
    requires args != [] && args[|args| - 1] in names
    ensures Group(args, names).managers[args[|args| - 1]] == ValueOf(args, names, args[|args| - 1])
  {
    assert args[|args|..] == [];
  }

  /** A string that the last argument does not extend is kept. */
  lemma StepKept(args: seq<string>, names: set<string>, k: string)
    requires args != [] && k != args[|args| - 1]
    requires var init := args[..|args| - 1];
      && k in Group(init, names).managers
      && Group(init, names).managers[k] == ValueOf(init, names, k)
      && (args[|args| - 1] in names || LeadingArgs(init[LastIndex(init, k) + 1..], names) != init[LastIndex(init, k) + 1..])
      && (args[|args| - 1] in names || Group(init, names).current != Some(k))
    ensures Group(args, names).managers[k] == ValueOf(args, names, k)
  {
    GroupKeepsOther(args, names, k);
    ValueKept(args, names, k);
  }

  lemma GroupKeepsOther(args: seq<string>, names: set<string>, k: string)
    requires args != [] && k != args[|args| - 1]
    requires var init := args[..|args| - 1];
      && k in Group(init, names).managers
      && (args[|args| - 1] in names || Group(init, names).current != Some(k))
    ensures Group(args, names).managers[k] == Group(args[..|args| - 1], names).managers[k]
  {
  }

  lemma ValueKept(args: seq<string>, names: set<string>, k: string)
    requires args != [] && k != args[|args| - 1]
    requires var init := args[..|args| - 1];
      args[|args| - 1] in names || LeadingArgs(init[LastIndex(init, k) + 1..], names) != init[LastIndex(init, k) + 1..]
    ensures ValueOf(args, names, k) == ValueOf(args[..|args| - 1], names, k)
  {
    var init, a := args[..|args| - 1], args[|args| - 1];
    AfterLastAppend(args, k);
    LeadingAppend(init[LastIndex(init, k) + 1..], a, names);
  }

  /** Appending an argument other than `k` appends it to what follows the
    * last `k`. */
  lemma AfterLastAppend(args: seq<string>, k: string)
    requires args != [] && k != args[|args| - 1]
    ensures var init := args[..|args| - 1];
      LastIndex(args, k) == LastIndex(init, k)
      && args[LastIndex(args, k) + 1..] == init[LastIndex(init, k) + 1..] + [args[|args| - 1]]
  {
  }

  /** An argument that is not a manager name extends the current manager's
    * string. */
  lemma StepExtended(args: seq<string>, names: set<string>, k: string)
    requires args != [] && args[|args| - 1] !in names
    requires var init := args[..|args| - 1];
      && Group(init, names).current == Some(k)
      && (forall i :: LastIndex(init, k) < i < |init| ==> init[i] !in names)
      && Group(init, names).managers[k] == ValueOf(init, names, k)
    ensures Group(args, names).managers[k] == ValueOf(args, names, k)
  {
    var init, a := args[..|args| - 1], args[|args| - 1];
    GroupCurrent(init, names);
    assert k != a;
    assert Group(args, names).managers[k] == Group(init, names).managers[k] + a + " ";
    ValueExtended(args, names, k);
  }

  lemma ValueExtended(args: seq<string>, names: set<string>, k: string)
    requires args != [] && args[|args| - 1] !in names && k != args[|args| - 1]
    requires var init := args[..|args| - 1];
      forall i :: LastIndex(init, k) < i < |init| ==> init[i] !in names
    ensures ValueOf(args, names, k) == ValueOf(args[..|args| - 1], names, k) + args[|args| - 1] + " "
  {
    var init, a := args[..|args| - 1], args[|args| - 1];
    var xs := init[LastIndex(init, k) + 1..];
    AfterLastAppend(args, k);
    NoNameAfterLast(init, names, k);
    JoinedExtended(xs, a, names);
    assert ValueOf(args, names, k) == Joined(LeadingArgs(xs + [a], names));
  }

  /** An argument that is not a name, after arguments without names, adds
    * itself and a space to the joined string. */
  lemma JoinedExtended(xs: seq<string>, a: string, names: set<string>)
    requires LeadingArgs(xs, names) == xs && a !in names
    ensures Joined(LeadingArgs(xs + [a], names)) == Joined(LeadingArgs(xs, names)) + a + " "
  {
    LeadingAppend(xs, a, names);
    assert (xs + [a])[..|xs|] == xs;
  }

  /** With no manager name after the last `k`, the arguments after it run to
    * the end. */
  lemma NoNameAfterLast(xs: seq<string>, names: set<string>, k: string)
    requires forall i :: LastIndex(xs, k) < i < |xs| ==> xs[i] !in names
    ensures var rest := xs[LastIndex(xs, k) + 1..]; LeadingArgs(rest, names) == rest
  {
    var rest := xs[LastIndex(xs, k) + 1..];
    assert IsCacheArgs(rest, names, rest);
    CacheArgsUnique(rest, names, rest, LeadingArgs(rest, names));
  }

  /** When `c`, the last manager name in `xs`, is not `k`, the arguments
    * after the last `k` stop before reaching the end. */
  lemma OtherNameAfter(xs: seq<string>, names: set<string>, k: string, c: string)
    requires k in names && k in xs && c in names && c in xs && k != c
    requires forall i :: LastIndex(xs, c) < i < |xs| ==> xs[i] !in names
    ensures var rest := xs[LastIndex(xs, k) + 1..]; LeadingArgs(rest, names) != rest
  {
    LastIndexSpec(xs, k);
    LastIndexSpec(xs, c);
    NameAfter(xs, names, LastIndex(xs, k), LastIndex(xs, c));
  }

  lemma NameAfter(xs: seq<string>, names: set<string>, j: int, jc: int)
    requires 0 <= j < |xs| && 0 <= jc < |xs| && xs[j] != xs[jc]
    requires xs[j] in names && xs[jc] in names
    requires forall i :: jc < i < |xs| ==> xs[i] !in names
    ensures LeadingArgs(xs[j + 1..], names) != xs[j + 1..]
  {
    var rest := xs[j + 1..];
    assert rest[jc - j - 1] == xs[jc];
    LeadingStopsAtName(rest, names, jc - j - 1);
  }

  /** The leading arguments stop at the first manager name. */
  lemma LeadingStopsAtName(rest: seq<string>, names: set<string>, m: int)
    requires 0 <= m < |rest| && rest[m] in names
    ensures LeadingArgs(rest, names) != rest
  {
    var l := LeadingArgs(rest, names);
    assert IsCacheArgs(rest, names, l);
  }

  /** Arguments before the first manager name are discarded. */
  lemma {:induction false} GroupDiscardsPrefix(pre: seq<string>, rest: seq<string>, names: set<string>)
    requires forall i :: 0 <= i < |pre| ==> pre[i] !in names
    ensures Group(pre + rest, names) == Group(rest, names)
  {
    if rest == [] {
      GroupCurrent(pre, names);
      GroupKeys(pre, names);
      assert pre + rest == pre;
      var g := Group(pre, names);
      assert g.managers == map[];
    } else {
      var init := rest[..|rest| - 1];
      assert (pre + rest)[..|pre + rest| - 1] == pre + init;
      GroupDiscardsPrefix(pre, init, names);
    }
  }

  /** Every name of `ds` mapped to the empty string. */
  function Empties(ds: seq<string>): map<string, string> {
    map d | d in ds :: ""
  }

  lemma EmptiesStep(ds: seq<string>, d: string)
    ensures Empties(ds)[d := ""] == Empties(ds + [d])
  {
    var l, r := Empties(ds)[d := ""], Empties(ds + [d]);
    assert forall x :: x in l <==> x in r;
    assert forall x :: x in l ==> l[x] == r[x];
  }

  /** What `getManagerArgs()` returns, given `process.argv` and the keys of
    * `getAvailableDefaultManagers()`. */
  function ManagerArgsOf(argv: seq<string>, names: set<string>, defaults: seq<string>): map<string, string> {
    var g := Group(Slice(argv, 3), names);
    if g.managers == map[] then Empties(defaults) else g.managers
  }

  /** `getManagerArgs()`. */
  method ManagerArgs(argv: seq<string>, names: set<string>, defaults: seq<string>) returns (managers: map<string, string>)
    ensures managers == ManagerArgsOf(argv, names, defaults)
  {
    managers := map[];
    var allArguments := Slice(argv, 3);
    var currManager: Option<string> := None;
    var i := 0;
    while i < |allArguments|
      invariant 0 <= i <= |allArguments|
      invariant Grouping(managers, currManager) == Group(allArguments[..i], names)
    {
      var argument := allArguments[i];
      assert allArguments[..i + 1][..i] == allArguments[..i];
      if argument in names {
        managers := managers[argument := ""];
        currManager := Some(argument);
      } else if currManager != None {
        managers := managers[currManager.value := managers[currManager.value] + argument + " "];
      }
      i := i + 1;
    }
    assert allArguments[..i] == allArguments;
    if managers == map[] {
      var j := 0;
      while j < |defaults|
        invariant 0 <= j <= |defaults|
        invariant managers == Empties(defaults[..j])
      {
        EmptiesStep(defaults[..j], defaults[j]);
        assert defaults[..j + 1] == defaults[..j] + [defaults[j]];
        managers := managers[defaults[j] := ""];
        j := j + 1;
      }
      assert defaults[..j] == defaults;
    }
  }

  /** The result has a key for every manager named after the command and
    * for nothing else, as soon as one manager is named. */
  lemma NamedManagersOnly(argv: seq<string>, names: set<string>, defaults: seq<string>)
    requires exists i :: 3 <= i < |argv| && argv[i] in names
    ensures forall k :: k in ManagerArgsOf(argv, names, defaults) <==> k in names && k in argv[3..]
  {
    var i :| 3 <= i < |argv| && argv[i] in names;
    GroupKeys(Slice(argv, 3), names);
    assert argv[i] in Group(Slice(argv, 3), names).managers by {
      assert argv[3..][i - 3] == argv[i];
    }
  }

  /** With no manager named, every default manager gets an empty string. */
  lemma DefaultsWhenNoneNamed(argv: seq<string>, names: set<string>, defaults: seq<string>)
    requires forall i :: 3 <= i < |argv| ==> argv[i] !in names
    ensures forall k :: k in ManagerArgsOf(argv, names, defaults) <==> k in defaults
    ensures forall k :: k in ManagerArgsOf(argv, names, defaults) ==> ManagerArgsOf(argv, names, defaults)[k] == ""
  {
    GroupKeys(Slice(argv, 3), names);
    var g := Group(Slice(argv, 3), names);
    assert forall k :: k in Slice(argv, 3) ==> k !in names;
    assert g.managers == map[];
  }

  /** The example in the doc comment of `getManagerArgs`,
    * `npm-cache install bower --allow-root --save npm --save`: each string
    * keeps a trailing space, which the comment omits. */
  lemma ManagerArgsExample(names: set<string>, defaults: seq<string>)
    requires "bower" in names && "npm" in names
    requires "--allow-root" !in names && "--save" !in names
    ensures var r := ManagerArgsOf(["node", "index.js", "install", "bower", "--allow-root", "--save", "npm", "--save"], names, defaults);
      && (forall k :: k in r <==> k == "bower" || k == "npm")
      && r["bower"] == Joined(["--allow-root", "--save"])
      && r["npm"] == Joined(["--save"])
  {
    var args := ["bower", "--allow-root", "--save", "npm", "--save"];
    assert ["node", "index.js", "install", "bower", "--allow-root", "--save", "npm", "--save"][3..] == args;
    GroupExample(args, names);
  }

  lemma GroupExample(args: seq<string>, names: set<string>)
    requires args == ["bower", "--allow-root", "--save", "npm", "--save"]
    requires "bower" in names && "npm" in names
    requires "--allow-root" !in names && "--save" !in names
    ensures var g := Group(args, names);
      && (forall k :: k in g.managers <==> k == "bower" || k == "npm")
      && g.managers["bower"] == Joined(["--allow-root", "--save"])
      && g.managers["npm"] == Joined(["--save"])
  {
    ExampleKeys(args, names);
    GroupValues(args, names);
    ExampleValues(args, names);
  }

  lemma ExampleKeys(args: seq<string>, names: set<string>)
    requires args == ["bower", "--allow-root", "--save", "npm", "--save"]
    requires "bower" in names && "npm" in names
    requires "--allow-root" !in names && "--save" !in names
    ensures forall k :: k in Group(args, names).managers <==> k == "bower" || k == "npm"
  {
    GroupKeys(args, names);
    assert args[0] == "bower" && args[3] == "npm";
  }

  lemma ExampleValues(args: seq<string>, names: set<string>)
    requires args == ["bower", "--allow-root", "--save", "npm", "--save"]
    requires "bower" in names && "npm" in names
    requires "--allow-root" !in names && "--save" !in names
    ensures ValueOf(args, names, "bower") == Joined(["--allow-root", "--save"])
    ensures ValueOf(args, names, "npm") == Joined(["--save"])
  {
    ExampleLastIndices(args);
    var b, n := args[1..], args[4..];
    assert IsCacheArgs(b, names, ["--allow-root", "--save"]);
    CacheArgsUnique(b, names, ["--allow-root", "--save"], LeadingArgs(b, names));
    assert IsCacheArgs(n, names, ["--save"]);
    CacheArgsUnique(n, names, ["--save"], LeadingArgs(n, names));
  }

  lemma ExampleLastIndices(args: seq<string>)
    requires args == ["bower", "--allow-root", "--save", "npm", "--save"]
    ensures LastIndex(args, "bower") == 0 && LastIndex(args, "npm") == 3
  {
    LastIndexSpec(args, "bower");
    LastIndexSpec(args, "npm");
  }

  /** Those strings, written out. */
  lemma ExampleStrings()
    ensures Joined(["--allow-root", "--save"]) == "--allow-root --save "
    ensures Joined(["--save"]) == "--save "
  {
    assert ["--allow-root", "--save"][..1] == ["--allow-root"];
    assert ["--allow-root"][..0] == [];
    assert ["--save"][..0] == [];
  }
}

/**
  Account resolution in packages/anchor-resolvers: an individual resolver is offered, in IDL order,
  every account that is not yet set; combineResolvers runs several such passes one after the other
  over the same tree of accounts.
 */
module Resolvers {
  import opened Common

  type Key = string
  type Path = seq<string>

  /** A nested accounts object: a name is bound to a public key or to a further object. */
  datatype Tree = Leaf(key: Key) | Node(children: Accounts)
  type Accounts = map<string, Tree>

  /** An entry of the instruction's account list; names are already in camel case. */
  datatype Item = Account(name: string) | Group(name: string, items: seq<Item>)

  datatype Answer = Found(key: Key) | Nothing | Throws

  /** A resolver may look at the path and at all accounts, but does not change them. */
  type Resolver = (Path, Accounts) -> Answer

  // ---------------------------------------------------------------------------------------------
  // get and set (utils.ts)
  // ---------------------------------------------------------------------------------------------

  function GetTree(a: Accounts, path: Path): Option<Tree>
    decreases |path|
  {
    if path == [] then Some(Node(a))
    else if path[0] !in a then None
    else if |path| == 1 then Some(a[path[0]])
    else if a[path[0]].Node? then GetTree(a[path[0]].children, path[1..])
    else None
  }

  /** get: only public keys count. */
  function GetKey(a: Accounts, path: Path): Option<Key> {
    var t := GetTree(a, path);
    if t.Some? && t.value.Leaf? then Some(t.value.key) else None
  }

  /** set: missing objects on the way are created. */
  function SetAt(a: Accounts, path: Path, key: Key): Accounts
    decreases |path|
  {
    if path == [] then a
    else if |path| == 1 then a[path[0] := Leaf(key)]
    else if path[0] !in a then a[path[0] := Node(SetAt(map[], path[1..], key))]
    else if a[path[0]].Node? then a[path[0] := Node(SetAt(a[path[0]].children, path[1..], key))]
    else a
  }

  /** The tree has the shape the path expects: objects on the way, nothing or a key at its end. */
  predicate Fits(a: Accounts, path: Path)
    decreases |path|
  {
    && path != []
    && (path[0] in a ==>
          if |path| == 1 then a[path[0]].Leaf? else a[path[0]].Node? && Fits(a[path[0]].children, path[1..]))
  }

  /** The paths part at some point, so neither leads through the other. */
  predicate Diverge(p: Path, q: Path) {
    p != [] && q != [] && (p[0] != q[0] || Diverge(p[1..], q[1..]))
  }

  lemma {:induction false} SetThenGet(a: Accounts, path: Path, key: Key)
    requires Fits(a, path)
    ensures GetKey(SetAt(a, path, key), path) == Some(key) && Fits(SetAt(a, path, key), path)
    decreases |path|
  {
    if |path| > 1 {
      SetThenGet(if path[0] in a then a[path[0]].children else map[], path[1..], key);
    }
  }

  lemma {:induction false} SetSameKey(a: Accounts, path: Path)
    requires GetKey(a, path).Some?
    ensures SetAt(a, path, GetKey(a, path).value) == a
    decreases |path|
  {
    if |path| > 1 {
      SetSameKey(a[path[0]].children, path[1..]);
    }
  }

  lemma {:induction false} EmptyHasNothing(path: Path)
    requires path != []
    ensures GetTree(map[], path) == None && Fits(map[], path)
  {
  }

  /** Setting one path leaves everything off that path as it was. */
  lemma {:induction false} SetElsewhere(a: Accounts, path: Path, key: Key, q: Path)
    requires Fits(a, path) && Diverge(path, q)
    ensures GetTree(SetAt(a, path, key), q) == GetTree(a, q)
    ensures Fits(a, q) ==> Fits(SetAt(a, path, key), q)
    decreases |path|
  {
    if path[0] == q[0] {
      var sub := if path[0] in a then a[path[0]].children else map[];
      SetElsewhere(sub, path[1..], key, q[1..]);
      if path[0] !in a {
        EmptyHasNothing(q[1..]);
      }
    }
  }

  // ---------------------------------------------------------------------------------------------
  // The leaves of the account list
  // ---------------------------------------------------------------------------------------------

  function LeavesOf(item: Item, prefix: Path): seq<Path>
    decreases item, 0
  {
    match item
    case Account(name) => [prefix + [name]]
    case Group(name, items) => Leaves(items, prefix + [name])
  }

  function Leaves(items: seq<Item>, prefix: Path): seq<Path>
    decreases items, |items|
  {
    if items == [] then [] else Leaves(items[..|items| - 1], prefix) + LeavesOf(items[|items| - 1], prefix)
  }

  /** The path leads through groups of the list to an account. */
  ghost predicate LeadsToAccount(items: seq<Item>, path: Path)
    decreases |path|, 0
  {
    path != [] && exists i :: 0 <= i < |items| && items[i].name == path[0] && ContinuesIn(items[i], path[1..])
  }

  ghost predicate ContinuesIn(item: Item, rest: Path)
    decreases |rest|, 1
  {
    if item.Account? then rest == [] else LeadsToAccount(item.items, rest)
  }

  /** The path starts with the prefix, and the rest of it leads to an account. */
  ghost predicate LeadsFrom(items: seq<Item>, prefix: Path, path: Path) {
    |path| >= |prefix| && path[..|prefix|] == prefix && LeadsToAccount(items, path[|prefix|..])
  }

  lemma LeadsThroughOne(item: Item, path: Path)
    ensures LeadsToAccount([item], path) <==> path != [] && item.name == path[0] && ContinuesIn(item, path[1..])
  {
    var one := [item];
    assert one[0] == item;
  }

  lemma LeadsThroughEither(items: seq<Item>, path: Path)
    requires items != []
    ensures var n := |items| - 1;
      LeadsToAccount(items, path) <==> LeadsToAccount(items[..n], path) || LeadsToAccount([items[n]], path)
  {
    var n := |items| - 1;
    hide ContinuesIn;
    LeadsThroughOne(items[n], path);
    if LeadsToAccount(items[..n], path) {
      var i :| 0 <= i < n && items[..n][i].name == path[0] && ContinuesIn(items[..n][i], path[1..]);
      assert items[i].name == path[0] && ContinuesIn(items[i], path[1..]);
    }
    if LeadsToAccount(items, path) {
      var i :| 0 <= i < |items| && items[i].name == path[0] && ContinuesIn(items[i], path[1..]);
      assert i < n ==> items[..n][i] == items[i];
    }
  }

  lemma PrefixExtended(prefix: Path, name: string, path: Path)
    requires |path| > |prefix|
    ensures path[..|prefix| + 1] == prefix + [name] <==> path[..|prefix|] == prefix && path[|prefix|] == name
  {
    var n := |prefix|;
    assert path[..n + 1] == path[..n] + [path[n]];
    if path[..n + 1] == prefix + [name] {
      assert path[..n] == path[..n + 1][..n] && path[n] == path[..n + 1][n];
    }
  }

  lemma {:induction false} LeavesOfAreAccounts(item: Item, prefix: Path, path: Path)
    ensures path in LeavesOf(item, prefix) <==> LeadsFrom([item], prefix, path)
    decreases item, 0
  {
    var n := |prefix|;
    if |path| > n {
      hide LeadsToAccount;
      LeadsThroughOne(item, path[n..]);
      PrefixExtended(prefix, item.name, path);
      assert path[n..][1..] == path[n + 1..];
      if item.Account? {
        assert LeavesOf(item, prefix) == [prefix + [item.name]];
        assert path[n + 1..] == [] <==> |path| == n + 1;
        assert |path| == n + 1 ==> path[..n + 1] == path;
      } else {
        LeavesAreAccounts(item.items, prefix + [item.name], path);
      }
    } else if item.Group? {
      LeavesAreAccounts(item.items, prefix + [item.name], path);
    }
  }

  /** The leaves are exactly the paths that lead through groups to an account. */
  lemma {:induction false} LeavesAreAccounts(items: seq<Item>, prefix: Path, path: Path)
    ensures path in Leaves(items, prefix) <==> LeadsFrom(items, prefix, path)
    decreases items, |items|
  {
    if items != [] {
      var n := |items| - 1;
      LeavesAreAccounts(items[..n], prefix, path);
      LeavesOfAreAccounts(items[n], prefix, path);
      if |path| >= |prefix| {
        hide LeadsToAccount;
        LeadsThroughEither(items, path[|prefix|..]);
      }
    }
  }

  /** Leaves come in the order of the list. */
  lemma {:induction false} LeavesInOrder(a: seq<Item>, b: seq<Item>, prefix: Path)
    ensures Leaves(a + b, prefix) == Leaves(a, prefix) + Leaves(b, prefix)
    decreases |b|
  {
    if b == [] {
      assert a + b == a;
    } else {
      var n := |b| - 1;
      assert (a + b)[..|a + b| - 1] == a + b[..n];
      LeavesInOrder(a, b[..n], prefix);
    }
  }

  /** Siblings have different names, at every level. */
  predicate DistinctNames(items: seq<Item>)
    decreases items, |items|
  {
    && (forall i, j :: 0 <= i < j < |items| ==> items[i].name != items[j].name)
    && (forall i :: 0 <= i < |items| ==> items[i].Group? ==> DistinctNames(items[i].items))
  }

  ghost predicate AllDiverge(paths: seq<Path>) {
    forall i, j :: 0 <= i < |paths| && 0 <= j < |paths| && i != j ==> Diverge(paths[i], paths[j])
  }

  /** The path continues the prefix with this name. */
  ghost predicate Under(path: Path, prefix: Path, name: string) {
    |path| > |prefix| && path[..|prefix|] == prefix && path[|prefix|] == name
  }

  lemma {:induction false} DivergeAfter(prefix: Path, p: Path, q: Path, m: string, n: string)
    requires Under(p, prefix, m) && Under(q, prefix, n) && m != n
    ensures Diverge(p, q) && Diverge(q, p)
    decreases |prefix|
  {
    if prefix != [] {
      assert p[0] == p[..|prefix|][0] && q[0] == q[..|prefix|][0];
      assert p[1..][..|prefix| - 1] == p[..|prefix|][1..] && q[1..][..|prefix| - 1] == q[..|prefix|][1..];
      DivergeAfter(prefix[1..], p[1..], q[1..], m, n);
    }
  }

  lemma {:induction false} LeavesOfUnder(item: Item, prefix: Path)
    ensures forall i :: 0 <= i < |LeavesOf(item, prefix)| ==> Under(LeavesOf(item, prefix)[i], prefix, item.name)
    decreases item, 0
  {
    if item.Group? {
      var longer := prefix + [item.name];
      LeavesUnder(item.items, longer);
      var paths := LeavesOf(item, prefix);
      forall i | 0 <= i < |paths|
        ensures Under(paths[i], prefix, item.name)
      {
        assert |paths[i]| > |longer| && paths[i][..|longer|] == longer;
        assert paths[i][|prefix|] == paths[i][..|longer|][|prefix|];
        assert paths[i][..|prefix|] == paths[i][..|longer|][..|prefix|];
      }
    }
  }

  lemma {:induction false} LeavesUnder(items: seq<Item>, prefix: Path)
    ensures forall i :: 0 <= i < |Leaves(items, prefix)| ==>
      && |Leaves(items, prefix)[i]| > |prefix| && Leaves(items, prefix)[i][..|prefix|] == prefix
      && exists k :: 0 <= k < |items| && Under(Leaves(items, prefix)[i], prefix, items[k].name)
    decreases items, |items|
  {
    if items != [] {
      var n := |items| - 1;
      LeavesUnder(items[..n], prefix);
      LeavesOfUnder(items[n], prefix);
      var front := Leaves(items[..n], prefix);
      forall i | 0 <= i < |Leaves(items, prefix)|
        ensures exists k :: 0 <= k < |items| && Under(Leaves(items, prefix)[i], prefix, items[k].name)
      {
        if i < |front| {
          var k :| 0 <= k < n && Under(front[i], prefix, items[..n][k].name);
          assert Under(Leaves(items, prefix)[i], prefix, items[k].name);
        } else {
          assert Under(Leaves(items, prefix)[i], prefix, items[n].name);
        }
      }
    }
  }

  /** With distinct sibling names, no leaf's path leads through another's. */
  lemma {:induction false} LeavesDiverge(items: seq<Item>, prefix: Path)
    requires DistinctNames(items)
    ensures AllDiverge(Leaves(items, prefix))
    decreases items, |items|
  {
    if items != [] {
      var n := |items| - 1;
      var front, back := Leaves(items[..n], prefix), LeavesOf(items[n], prefix);
      LeavesDiverge(items[..n], prefix);
      if items[n].Group? {
        LeavesDiverge(items[n].items, prefix + [items[n].name]);
      }
      LeavesUnder(items[..n], prefix);
      LeavesOfUnder(items[n], prefix);
      forall i, j | 0 <= i < |front| && 0 <= j < |back|
        ensures Diverge(front[i], back[j]) && Diverge(back[j], front[i])
      {
        var k :| 0 <= k < n && Under(front[i], prefix, items[..n][k].name);
        DivergeAfter(prefix, front[i], back[j], items[k].name, items[n].name);
      }
    }
  }

  // ---------------------------------------------------------------------------------------------
  // One pass of one resolver
  // ---------------------------------------------------------------------------------------------

  datatype Progress = Progress(accounts: Accounts, resolved: nat, threw: bool)

  /** A visit to one leaf. */
  function Visit(r: Resolver, s: Progress, path: Path): Progress {
    if s.threw then s
    else
      var existing := GetKey(s.accounts, path);
      if existing.Some? then s.(accounts := SetAt(s.accounts, path, existing.value))
      else
        match r(path, s.accounts)
        case Found(key) => s.(accounts := SetAt(s.accounts, path, key), resolved := s.resolved + 1)
        case Nothing => s
        case Throws => s.(threw := true)
  }

  function Pass(r: Resolver, paths: seq<Path>, s: Progress): Progress {
    if paths == [] then s else Visit(r, Pass(r, paths[..|paths| - 1], s), paths[|paths| - 1])
  }

  function AnswerKey(answer: Answer): Option<Key> {
    if answer.Found? then Some(answer.key) else None
  }

  ghost function Filled(a: Accounts, paths: seq<Path>): nat {
    if paths == [] then 0
    else Filled(a, paths[..|paths| - 1]) + if GetKey(a, paths[|paths| - 1]).Some? then 1 else 0
  }

  ghost predicate AllFit(a: Accounts, paths: seq<Path>) {
    forall i :: 0 <= i < |paths| ==> Fits(a, paths[i])
  }

  /** A visit changes at most its own leaf, and only if that was empty and the resolver had an answer. */
  lemma VisitFacts(r: Resolver, s: Progress, path: Path)
    requires Fits(s.accounts, path)
    ensures var s' := Visit(r, s, path);
      && Fits(s'.accounts, path)
      && (!s'.threw ==>
            GetKey(s'.accounts, path) ==
              (if GetKey(s.accounts, path).Some? then GetKey(s.accounts, path) else AnswerKey(r(path, s.accounts))))
      && (!s'.threw ==>
            s'.resolved == s.resolved +
              (if GetKey(s.accounts, path).None? && GetKey(s'.accounts, path).Some? then 1 else 0))
      && (GetKey(s.accounts, path).Some? ==> s'.accounts == s.accounts)
      && (s.threw ==> s' == s)
  {
    if GetKey(s.accounts, path).Some? {
      SetSameKey(s.accounts, path);
    } else if r(path, s.accounts).Found? {
      SetThenGet(s.accounts, path, r(path, s.accounts).key);
    }
  }

  lemma VisitElsewhere(r: Resolver, s: Progress, path: Path, q: Path)
    requires Fits(s.accounts, path) && Diverge(path, q)
    ensures GetTree(Visit(r, s, path).accounts, q) == GetTree(s.accounts, q)
    ensures Fits(s.accounts, q) ==> Fits(Visit(r, s, path).accounts, q)
  {
    if GetKey(s.accounts, path).Some? {
      SetSameKey(s.accounts, path);
    } else if r(path, s.accounts).Found? {
      SetElsewhere(s.accounts, path, r(path, s.accounts).key, q);
    }
  }

  /** A pass leaves everything off the leaves' paths untouched, and the tree in shape. */
  lemma {:induction false} PassElsewhere(r: Resolver, paths: seq<Path>, s: Progress, q: Path)
    requires AllFit(s.accounts, paths) && AllDiverge(paths)
    requires forall i :: 0 <= i < |paths| ==> Diverge(paths[i], q)
    ensures GetTree(Pass(r, paths, s).accounts, q) == GetTree(s.accounts, q)
    ensures Fits(s.accounts, q) ==> Fits(Pass(r, paths, s).accounts, q)
    decreases |paths|
  {
    if paths != [] {
      var n := |paths| - 1;
      PassElsewhere(r, paths[..n], s, q);
      PassElsewhere(r, paths[..n], s, paths[n]);
      VisitElsewhere(r, Pass(r, paths[..n], s), paths[n], q);
    }
  }

  lemma {:induction false} PassFits(r: Resolver, paths: seq<Path>, s: Progress)
    requires AllFit(s.accounts, paths) && AllDiverge(paths)
    ensures AllFit(Pass(r, paths, s).accounts, paths)
    decreases |paths|
  {
    if paths != [] {
      var n := |paths| - 1;
      PassFits(r, paths[..n], s);
      PassElsewhere(r, paths[..n], s, paths[n]);
      var mid := Pass(r, paths[..n], s);
      VisitFacts(r, mid, paths[n]);
      forall i | 0 <= i < n
        ensures Fits(Pass(r, paths, s).accounts, paths[i])
      {
        assert paths[..n][i] == paths[i];
        VisitElsewhere(r, mid, paths[n], paths[i]);
      }
    }
  }

  lemma PassThrew(r: Resolver, paths: seq<Path>, s: Progress, n: nat)
    requires n <= |paths| && !Pass(r, paths, s).threw
    ensures !Pass(r, paths[..n], s).threw
    decreases |paths|
  {
    if n < |paths| {
      var k := |paths| - 1;
      PassThrew(r, paths[..k], s, n);
      assert paths[..k][..n] == paths[..n];
    } else {
      assert paths[..n] == paths;
    }
  }

  /**
    After a pass, a leaf that was set still holds the same key; any other holds what the resolver
    answered for it on the accounts as they stood when its turn came.
   */
  lemma {:induction false} PassValue(r: Resolver, paths: seq<Path>, s: Progress, j: nat)
    requires AllFit(s.accounts, paths) && AllDiverge(paths) && j < |paths|
    requires !Pass(r, paths, s).threw
    ensures GetKey(Pass(r, paths, s).accounts, paths[j]) ==
      if GetKey(s.accounts, paths[j]).Some? then GetKey(s.accounts, paths[j])
      else AnswerKey(r(paths[j], Pass(r, paths[..j], s).accounts))
    decreases |paths|
  {
    hide Visit, GetTree, Fits, Diverge;
    var n := |paths| - 1;
    var mid := Pass(r, paths[..n], s);
    PassElsewhere(r, paths[..n], s, paths[n]);
    VisitFacts(r, mid, paths[n]);
    if j < n {
      PassThrew(r, paths, s, n);
      PassValue(r, paths[..n], s, j);
      VisitElsewhere(r, mid, paths[n], paths[j]);
      assert paths[..n][..j] == paths[..j];
    }
  }

  lemma {:induction false} FilledAgrees(a: Accounts, b: Accounts, paths: seq<Path>)
    requires forall i :: 0 <= i < |paths| ==> GetKey(a, paths[i]) == GetKey(b, paths[i])
    ensures Filled(a, paths) == Filled(b, paths)
  {
    if paths != [] {
      FilledAgrees(a, b, paths[..|paths| - 1]);
    }
  }

  /** The count a pass returns is the number of leaves it filled. */
  lemma {:induction false} PassCount(r: Resolver, paths: seq<Path>, s: Progress)
    requires AllFit(s.accounts, paths) && AllDiverge(paths) && !Pass(r, paths, s).threw
    ensures Pass(r, paths, s).resolved - s.resolved
         == Filled(Pass(r, paths, s).accounts, paths) - Filled(s.accounts, paths)
    decreases |paths|
  {
    hide Visit, GetTree, Fits, Diverge;
    if paths != [] {
      var n := |paths| - 1;
      var mid := Pass(r, paths[..n], s);
      PassThrew(r, paths, s, n);
      PassCount(r, paths[..n], s);
      PassElsewhere(r, paths[..n], s, paths[n]);
      VisitFacts(r, mid, paths[n]);
      forall i | 0 <= i < n
        ensures GetKey(Visit(r, mid, paths[n]).accounts, paths[..n][i]) == GetKey(mid.accounts, paths[..n][i])
      {
        VisitElsewhere(r, mid, paths[n], paths[i]);
      }
      FilledAgrees(Visit(r, mid, paths[n]).accounts, mid.accounts, paths[..n]);
    }
  }

  // ---------------------------------------------------------------------------------------------
  // Several resolvers
  // ---------------------------------------------------------------------------------------------

  /** combineResolvers: pass after pass over the same accounts, counts added up. */
  function Combined(rs: seq<Resolver>, paths: seq<Path>, s: Progress): Progress {
    if rs == [] then s else Pass(rs[|rs| - 1], paths, Combined(rs[..|rs| - 1], paths, s))
  }

  /** The accounts as the i-th resolver finds them at the j-th leaf. */
  ghost function SeenBy(rs: seq<Resolver>, paths: seq<Path>, s: Progress, i: nat, j: nat): Accounts
    requires i < |rs| && j < |paths|
  {
    Pass(rs[i], paths[..j], Combined(rs[..i], paths, s)).accounts
  }

  /** The key the leaf had at first, or else the first answer among the first n resolvers. */
  ghost function FirstAnswer(rs: seq<Resolver>, paths: seq<Path>, s: Progress, j: nat, n: nat): Option<Key>
    requires n <= |rs| && j < |paths|
  {
    if n == 0 then GetKey(s.accounts, paths[j])
    else
      var earlier := FirstAnswer(rs, paths, s, j, n - 1);
      if earlier.Some? then earlier else AnswerKey(rs[n - 1](paths[j], SeenBy(rs, paths, s, n - 1, j)))
  }

  lemma {:induction false} CombinedFits(rs: seq<Resolver>, paths: seq<Path>, s: Progress)
    requires AllFit(s.accounts, paths) && AllDiverge(paths)
    ensures AllFit(Combined(rs, paths, s).accounts, paths)
    decreases |rs|
  {
    if rs != [] {
      var k := |rs| - 1;
      CombinedFits(rs[..k], paths, s);
      PassFits(rs[k], paths, Combined(rs[..k], paths, s));
    }
  }

  lemma CombinedThrew(rs: seq<Resolver>, paths: seq<Path>, s: Progress)
    requires rs != [] && !Combined(rs, paths, s).threw
    ensures !Combined(rs[..|rs| - 1], paths, s).threw
  {
    PassThrew(rs[|rs| - 1], paths, Combined(rs[..|rs| - 1], paths, s), 0);
    assert paths[..0] == [];
  }

  lemma {:induction false} CombinedValue(rs: seq<Resolver>, paths: seq<Path>, s: Progress, j: nat, n: nat)
    requires AllFit(s.accounts, paths) && AllDiverge(paths) && j < |paths| && n <= |rs|
    requires !Combined(rs[..n], paths, s).threw
    ensures GetKey(Combined(rs[..n], paths, s).accounts, paths[j]) == FirstAnswer(rs, paths, s, j, n)
    decreases n
  {
    if n > 0 {
      assert rs[..n][..n - 1] == rs[..n - 1];
      CombinedThrew(rs[..n], paths, s);
      CombinedFits(rs[..n - 1], paths, s);
      CombinedValue(rs, paths, s, j, n - 1);
      PassValue(rs[n - 1], paths, Combined(rs[..n - 1], paths, s), j);
    }
  }

  lemma {:induction false} CombinedCount(rs: seq<Resolver>, paths: seq<Path>, s: Progress)
    requires AllFit(s.accounts, paths) && AllDiverge(paths) && !Combined(rs, paths, s).threw
    ensures Combined(rs, paths, s).resolved - s.resolved
         == Filled(Combined(rs, paths, s).accounts, paths) - Filled(s.accounts, paths)
    decreases |rs|
  {
    if rs != [] {
      var k := |rs| - 1;
      CombinedThrew(rs, paths, s);
      CombinedFits(rs[..k], paths, s);
      CombinedCount(rs[..k], paths, s);
      PassCount(rs[k], paths, Combined(rs[..k], paths, s));
    }
  }

  lemma {:induction false} CombinedElsewhere(rs: seq<Resolver>, paths: seq<Path>, s: Progress, q: Path)
    requires AllFit(s.accounts, paths) && AllDiverge(paths)
    requires forall i :: 0 <= i < |paths| ==> Diverge(paths[i], q)
    ensures GetTree(Combined(rs, paths, s).accounts, q) == GetTree(s.accounts, q)
    decreases |rs|
  {
    if rs != [] {
      var k := |rs| - 1;
      CombinedElsewhere(rs[..k], paths, s, q);
      CombinedFits(rs[..k], paths, s);
      PassElsewhere(rs[k], paths, Combined(rs[..k], paths, s), q);
    }
  }

  // A resolver that throws leaves the caller's accounts half filled.

  /** The i-th resolver throws when it is asked about the k-th leaf. */
  ghost predicate ThrowsAt(rs: seq<Resolver>, paths: seq<Path>, s: Progress, i: nat, k: nat) {
    && i < |rs| && k < |paths|
    && !Pass(rs[i], paths[..k], Combined(rs[..i], paths, s)).threw
    && GetKey(SeenBy(rs, paths, s, i, k), paths[k]).None?
    && rs[i](paths[k], SeenBy(rs, paths, s, i, k)).Throws?
  }

  lemma {:induction false} PassThrowsSomewhere(r: Resolver, paths: seq<Path>, s: Progress) returns (k: nat)
    requires !s.threw && Pass(r, paths, s).threw
    ensures k < |paths| && !Pass(r, paths[..k], s).threw
    ensures var seen := Pass(r, paths[..k], s).accounts;
      && GetKey(seen, paths[k]).None? && r(paths[k], seen).Throws? && Pass(r, paths, s).accounts == seen
    decreases |paths|
  {
    var n := |paths| - 1;
    if Pass(r, paths[..n], s).threw {
      k := PassThrowsSomewhere(r, paths[..n], s);
      assert paths[..n][..k] == paths[..k];
    } else {
      k := n;
    }
  }

  /** A run that threw stopped at one leaf of one resolver, with the accounts as that call found them. */
  lemma {:induction false} StoppedAt(rs: seq<Resolver>, paths: seq<Path>, s: Progress) returns (i: nat, k: nat)
    requires !s.threw && Combined(rs, paths, s).threw
    ensures ThrowsAt(rs, paths, s, i, k)
    ensures Combined(rs, paths, s).accounts == SeenBy(rs, paths, s, i, k)
    decreases |rs|
  {
    var n := |rs| - 1;
    var mid := Combined(rs[..n], paths, s);
    if mid.threw {
      i, k := StoppedAt(rs[..n], paths, s);
      assert rs[..n][..i] == rs[..i];
      PassOfThrown(rs[n], paths, mid);
    } else {
      i := n;
      k := PassThrowsSomewhere(rs[n], paths, mid);
    }
  }

  /** What a leaf holds when the i-th resolver reaches the k-th leaf. */
  lemma ValueSeen(rs: seq<Resolver>, paths: seq<Path>, s: Progress, i: nat, k: nat, j: nat)
    requires AllFit(s.accounts, paths) && AllDiverge(paths) && i < |rs| && k < |paths| && j < |paths|
    requires !Pass(rs[i], paths[..k], Combined(rs[..i], paths, s)).threw
    ensures GetKey(SeenBy(rs, paths, s, i, k), paths[j])
         == FirstAnswer(rs, paths, s, j, if j < k then i + 1 else i)
  {
    var mid := Combined(rs[..i], paths, s);
    PassThrew(rs[i], paths[..k], mid, 0);
    assert paths[..k][..0] == [];
    CombinedValue(rs, paths, s, j, i);
    CombinedFits(rs[..i], paths, s);
    if j < k {
      PassValue(rs[i], paths[..k], mid, j);
      assert paths[..k][..j] == paths[..j];
    } else {
      PassElsewhere(rs[i], paths[..k], mid, paths[j]);
    }
  }

  /** Off the paths of all leaves. */
  ghost predicate OffAll(paths: seq<Path>, q: Path) {
    forall i :: 0 <= i < |paths| ==> Diverge(paths[i], q)
  }

  /** The leaves as a complete run leaves them, and the count it returns. */
  ghost predicate AllOffered(rs: seq<Resolver>, paths: seq<Path>, s: Progress, end: Progress) {
    && (forall j :: 0 <= j < |paths| ==> GetKey(end.accounts, paths[j]) == FirstAnswer(rs, paths, s, j, |rs|))
    && end.resolved - s.resolved == Filled(end.accounts, paths) - Filled(s.accounts, paths)
  }

  /** The leaves as a run leaves them whose i-th resolver threw at the k-th leaf. */
  ghost predicate OfferedUntil(rs: seq<Resolver>, paths: seq<Path>, s: Progress, end: Progress, i: nat, k: nat) {
    && ThrowsAt(rs, paths, s, i, k)
    && forall j :: 0 <= j < |paths| ==>
         GetKey(end.accounts, paths[j]) == FirstAnswer(rs, paths, s, j, if j < k then i + 1 else i)
  }

  /**
    Running any combination of resolvers over an instruction's account list: every leaf ends with
    the key it already had, or else with the first answer in resolver order; everything off the
    leaves' paths is untouched; and the count returned is the number of leaves filled.  If a
    resolver throws, the leaves before that call are as after its turn, and the others as before.
   */
  lemma ResolversFillFirstAnswer(rs: seq<Resolver>, items: seq<Item>, accounts: Accounts)
    requires DistinctNames(items) && AllFit(accounts, Leaves(items, []))
    ensures var paths, s := Leaves(items, []), Progress(accounts, 0, false);
      var end := Combined(rs, paths, s);
      && (!end.threw ==> AllOffered(rs, paths, s, end))
      && (end.threw ==> exists i: nat, k: nat :: OfferedUntil(rs, paths, s, end, i, k))
      && (forall q :: OffAll(paths, q) ==> GetTree(end.accounts, q) == GetTree(accounts, q))
  {
    var paths, s := Leaves(items, []), Progress(accounts, 0, false);
    var end := Combined(rs, paths, s);
    LeavesDiverge(items, []);
    if end.threw {
      var i, k := StoppedAt(rs, paths, s);
      forall j | 0 <= j < |paths|
        ensures GetKey(end.accounts, paths[j]) == FirstAnswer(rs, paths, s, j, if j < k then i + 1 else i)
      {
        ValueSeen(rs, paths, s, i, k, j);
      }
      assert OfferedUntil(rs, paths, s, end, i, k);
    } else {
      assert rs[..|rs|] == rs;
      forall j | 0 <= j < |paths|
        ensures GetKey(end.accounts, paths[j]) == FirstAnswer(rs, paths, s, j, |rs|)
      {
        CombinedValue(rs, paths, s, j, |rs|);
      }
      CombinedCount(rs, paths, s);
    }
    forall q | OffAll(paths, q)
      ensures GetTree(end.accounts, q) == GetTree(accounts, q)
    {
      CombinedElsewhere(rs, paths, s, q);
    }
  }

  lemma {:induction false} FirstAnswerKeepsKey(rs: seq<Resolver>, paths: seq<Path>, s: Progress, j: nat, n: nat)
    requires n <= |rs| && j < |paths| && GetKey(s.accounts, paths[j]).Some?
    ensures FirstAnswer(rs, paths, s, j, n) == GetKey(s.accounts, paths[j])
  {
    if n > 0 {
      FirstAnswerKeepsKey(rs, paths, s, j, n - 1);
    }
  }

  /** An account that is set is never changed, also when a resolver throws. */
  lemma SetAccountsStay(rs: seq<Resolver>, items: seq<Item>, accounts: Accounts, j: nat)
    requires DistinctNames(items) && AllFit(accounts, Leaves(items, [])) && j < |Leaves(items, [])|
    requires GetKey(accounts, Leaves(items, [])[j]).Some?
    ensures var paths := Leaves(items, []);
      GetKey(Combined(rs, paths, Progress(accounts, 0, false)).accounts, paths[j]) == GetKey(accounts, paths[j])
  {
    var paths, s := Leaves(items, []), Progress(accounts, 0, false);
    var end := Combined(rs, paths, s);
    ResolversFillFirstAnswer(rs, items, accounts);
    if end.threw {
      var i: nat, k: nat :| OfferedUntil(rs, paths, s, end, i, k);
      FirstAnswerKeepsKey(rs, paths, s, j, if j < k then i + 1 else i);
    } else {
      FirstAnswerKeepsKey(rs, paths, s, j, |rs|);
    }
  }

  // ---------------------------------------------------------------------------------------------
  // The program
  // ---------------------------------------------------------------------------------------------

  lemma {:induction false} PassAppend(r: Resolver, a: seq<Path>, b: seq<Path>, s: Progress)
    ensures Pass(r, a + b, s) == Pass(r, b, Pass(r, a, s))
    decreases |b|
  {
    if b == [] {
      assert a + b == a;
    } else {
      var n := |b| - 1;
      assert (a + b)[..|a + b| - 1] == a + b[..n];
      PassAppend(r, a, b[..n], s);
    }
  }

  lemma {:induction false} PassAdds(r: Resolver, paths: seq<Path>, a: Accounts, n: nat)
    ensures var s := Pass(r, paths, Progress(a, 0, false));
      Pass(r, paths, Progress(a, n, false)) == s.(resolved := n + s.resolved)
  {
    if paths != [] {
      PassAdds(r, paths[..|paths| - 1], a, n);
    }
  }

  lemma {:induction false} PassOfThrown(r: Resolver, paths: seq<Path>, s: Progress)
    requires s.threw
    ensures Pass(r, paths, s) == s
  {
    if paths != [] {
      PassOfThrown(r, paths[..|paths| - 1], s);
    }
  }

  lemma {:induction false} LeavesPrefix(items: seq<Item>, prefix: Path, k: nat)
    requires k <= |items|
    ensures exists more :: Leaves(items, prefix) == Leaves(items[..k], prefix) + more
    decreases |items|
  {
    if k == |items| {
      assert items[..k] == items;
      assert Leaves(items, prefix) == Leaves(items[..k], prefix) + [];
    } else {
      var n := |items| - 1;
      LeavesPrefix(items[..n], prefix, k);
      assert items[..n][..k] == items[..k];
      var more :| Leaves(items[..n], prefix) == Leaves(items[..k], prefix) + more;
      assert Leaves(items, prefix) == Leaves(items[..k], prefix) + (more + LeavesOf(items[n], prefix));
    }
  }

  class Resolution {
    var accounts: Accounts

    constructor (accounts: Accounts)
      ensures this.accounts == accounts
    {
      this.accounts := accounts;
    }

    method Set(path: Path, value: Option<Key>)
      modifies this
      ensures accounts == if value.None? then old(accounts) else SetAt(old(accounts), path, value.value)
    {
      if value.None? {
        return;
      }
      accounts := SetAt(accounts, path, value.value);
    }

    /** resolveIndividualImpl: the count of accounts resolved, or None when the resolver throws. */
    method ResolveIndividualImpl(item: Item, path: Path, resolver: Resolver) returns (resolved: Option<nat>)
      modifies this
      ensures var s := Pass(resolver, LeavesOf(item, path), Progress(old(accounts), 0, false));
        && accounts == s.accounts
        && resolved == if s.threw then None else Some(s.resolved)
      decreases item, 1
    {
      match item
      case Group(name, items) =>
        resolved := ResolveItems(items, path + [name], resolver);
      case Account(name) =>
        var newPath := path + [name];
        assert LeavesOf(item, path) == [newPath] && [newPath][..0] == [];
        var value := GetKey(accounts, newPath);
        var count := 0;
        if value.None? {
          var answer := resolver(newPath, accounts);
          if answer.Throws? {
            return None;
          }
          value := AnswerKey(answer);
          if value.Some? {
            count := 1;
          }
        }
        Set(newPath, value);
        resolved := Some(count);
    }

    /** The loop over an account list, in resolveIndividual and in resolveIndividualImpl. */
    method ResolveItems(items: seq<Item>, path: Path, resolver: Resolver) returns (resolved: Option<nat>)
      modifies this
      ensures var s := Pass(resolver, Leaves(items, path), Progress(old(accounts), 0, false));
        && accounts == s.accounts
        && resolved == if s.threw then None else Some(s.resolved)
      decreases items, 0
    {
      var count := 0;
      ghost var start := Progress(accounts, 0, false);
      for k := 0 to |items|
        invariant Pass(resolver, Leaves(items[..k], path), start) == Progress(accounts, count, false)
      {
        ghost var before := accounts;
        var sub := ResolveIndividualImpl(items[k], path, resolver);
        assert items[..k + 1][..k] == items[..k];
        PassAppend(resolver, Leaves(items[..k], path), LeavesOf(items[k], path), start);
        PassAdds(resolver, LeavesOf(items[k], path), before, count);
        if sub.None? {
          LeavesPrefix(items, path, k + 1);
          ghost var more :| Leaves(items, path) == Leaves(items[..k + 1], path) + more;
          PassAppend(resolver, Leaves(items[..k + 1], path), more, start);
          PassOfThrown(resolver, more, Pass(resolver, Leaves(items[..k + 1], path), start));
          return None;
        }
        count := count + sub.value;
      }
      assert items[..|items|] == items;
      return Some(count);
    }

    /** combineResolvers over individual resolvers. */
    method RunCombined(resolvers: seq<Resolver>, items: seq<Item>) returns (resolved: Option<nat>)
      modifies this
      ensures var s := Combined(resolvers, Leaves(items, []), Progress(old(accounts), 0, false));
        && accounts == s.accounts
        && resolved == if s.threw then None else Some(s.resolved)
    {
      var count := 0;
      ghost var start, paths := Progress(accounts, 0, false), Leaves(items, []);
      for i := 0 to |resolvers|
        invariant Combined(resolvers[..i], paths, start) == Progress(accounts, count, false)
      {
        ghost var before := accounts;
        var result := ResolveItems(items, [], resolvers[i]);
        assert resolvers[..i + 1][..i] == resolvers[..i];
        PassAdds(resolvers[i], paths, before, count);
        if result.None? {
          CombinedOfThrown(resolvers, paths, start, i + 1);
          return None;
        }
        count := count + result.value;
      }
      assert resolvers[..|resolvers|] == resolvers;
      return Some(count);
    }
  }

  lemma {:induction false} CombinedOfThrown(rs: seq<Resolver>, paths: seq<Path>, s: Progress, k: nat)
    requires k <= |rs| && Combined(rs[..k], paths, s).threw
    ensures Combined(rs, paths, s) == Combined(rs[..k], paths, s)
    decreases |rs|
  {
    if k == |rs| {
      assert rs[..k] == rs;
    } else {
      var n := |rs| - 1;
      assert rs[..n][..k] == rs[..k];
      CombinedOfThrown(rs[..n], paths, s, k);
      PassOfThrown(rs[n], paths, Combined(rs[..n], paths, s));
    }
  }
}

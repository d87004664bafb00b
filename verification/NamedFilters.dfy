/** User-defined filters: replacing their names in an expression, and activating a selection. */
module NamedFilters {
  import Glob
  import opened Basics
  import opened FilterTokens
  import opened FilterExpr
  import opened ShortFilter
  import opened ShortMeaning

  type Table = map<string, string>

  // ---------------------------------------------------------------------------------------
  // Checking leaves
  // ---------------------------------------------------------------------------------------

  datatype CheckError =
    | TypeMismatch(key: string)
    | UnknownKey(key: string)
    | UnknownFilter(name: string)
    | Recursive(name: string)
    | Malformed(name: string)

  datatype Checked = Checked(expr: Expr, visited: set<string>) | Refused(error: CheckError, visited: set<string>)

  predicate HasType(leaf: Leaf, t: KeyType) {
    match t
    case StrKey => leaf.StrLeaf?
    case IntKey => leaf.IntLeaf?
    case BoolKey => leaf.BoolLeaf?
  }

  /** Replaces names of filters by their expressions, from left to right. Every filter that is
      followed is marked visited and stays so. */
  function Check(e: Expr, table: Table, visited: set<string>): (r: Checked)
    ensures visited <= r.visited
    decreases table.Keys - visited, e
  {
    match e
    case AndExpr(l, r) =>
      var cl := Check(l, table, visited);
      if cl.Refused? then cl
      else
        var cr := Check(r, table, cl.visited);
        if cr.Refused? then cr else Checked(AndExpr(cl.expr, cr.expr), cr.visited)
    case OrExpr(l, r) =>
      var cl := Check(l, table, visited);
      if cl.Refused? then cl
      else
        var cr := Check(r, table, cl.visited);
        if cr.Refused? then cr else Checked(OrExpr(cl.expr, cr.expr), cr.visited)
    case NotExpr(x) =>
      var c := Check(x, table, visited);
      if c.Refused? then c else Checked(NotExpr(c.expr), c.visited)
    case LeafExpr(leaf) =>
      var t := Builtin(leaf.key);
      if t.Some? then
        if HasType(leaf, t.value) then Checked(e, visited) else Refused(TypeMismatch(leaf.key), visited)
      else if !leaf.BoolLeaf? then Refused(CheckError.UnknownKey(leaf.key), visited)
      else if leaf.key !in table then Refused(UnknownFilter(leaf.key), visited)
      else if leaf.key in visited then Refused(Recursive(leaf.key), visited)
      else
        var read := FilterRead(table[leaf.key]);
        if read.None? then Refused(Malformed(leaf.key), visited + {leaf.key})
        else Check(read.value, table, visited + {leaf.key})
  }

  /** No leaf but builtin keys compared as their type allows. */
  predicate OnlyBuiltin(e: Expr) {
    match e
    case AndExpr(l, r) => OnlyBuiltin(l) && OnlyBuiltin(r)
    case OrExpr(l, r) => OnlyBuiltin(l) && OnlyBuiltin(r)
    case NotExpr(x) => OnlyBuiltin(x)
    case LeafExpr(leaf) => Builtin(leaf.key).Some? && HasType(leaf, Builtin(leaf.key).value)
  }

  /** A builtin key is compared with what its type allows, and nothing else passes on its own. */
  lemma BuiltinLeaves(leaf: Leaf, table: Table, visited: set<string>)
    requires Builtin(leaf.key).Some?
    ensures Check(LeafExpr(leaf), table, visited) ==
            match (Builtin(leaf.key).value, leaf) {
              case (StrKey, StrLeaf(_, _, _)) => Checked(LeafExpr(leaf), visited)
              case (IntKey, IntLeaf(_, _, _)) => Checked(LeafExpr(leaf), visited)
              case (BoolKey, BoolLeaf(_)) => Checked(LeafExpr(leaf), visited)
              case _ => Refused(TypeMismatch(leaf.key), visited)
            }
  {
    hide Builtin, FilterRead;
  }

  // ---------------------------------------------------------------------------------------
  // Unfolding, described on its own
  // ---------------------------------------------------------------------------------------

  /** How an expression unfolds: which leaves are kept and which references are followed. */
  datatype Unfolding =
    | Kept
    | Under(inner: Unfolding)
    | Both(left: Unfolding, right: Unfolding)
    | Followed(name: string, inner: Unfolding)

  predicate Unfolds(u: Unfolding, e: Expr, table: Table, r: Expr)
    decreases u
  {
    match u
    case Kept => e.LeafExpr? && r == e && OnlyBuiltin(e)
    case Under(inner) => e.NotExpr? && r.NotExpr? && Unfolds(inner, e.operand, table, r.operand)
    case Both(left, right) =>
      && ((e.AndExpr? && r.AndExpr?) || (e.OrExpr? && r.OrExpr?))
      && Unfolds(left, e.left, table, r.left)
      && Unfolds(right, e.right, table, r.right)
    case Followed(name, inner) =>
      && e == LeafExpr(BoolLeaf(name))
      && Builtin(name).None?
      && name in table
      && FilterRead(table[name]).Some?
      && Unfolds(inner, FilterRead(table[name]).value, table, r)
  }

  /** The names followed, in order. */
  function References(u: Unfolding): seq<string> {
    match u
    case Kept => []
    case Under(inner) => References(inner)
    case Both(left, right) => References(left) + References(right)
    case Followed(name, inner) => [name] + References(inner)
  }

  function Elements(names: seq<string>): set<string> {
    set n | n in names
  }

  predicate Distinct(names: seq<string>) {
    forall i, j :: 0 <= i < j < |names| ==> names[i] != names[j]
  }

  lemma DistinctConcat(a: seq<string>, b: seq<string>)
    ensures Distinct(a + b) <==> Distinct(a) && Distinct(b) && Elements(a) !! Elements(b)
    ensures Elements(a + b) == Elements(a) + Elements(b)
  {
    var ab := a + b;
    assert forall n :: n in ab <==> n in a || n in b;
    if Distinct(ab) {
      forall i, j | 0 <= i < j < |b|
        ensures b[i] != b[j]
      {
        assert ab[|a| + i] == b[i] && ab[|a| + j] == b[j];
      }
      forall i, j | 0 <= i < j < |a|
        ensures a[i] != a[j]
      {
        assert ab[i] == a[i] && ab[j] == a[j];
      }
      forall i, j | 0 <= i < |a| && 0 <= j < |b|
        ensures a[i] != b[j]
      {
        assert ab[i] == a[i] && ab[|a| + j] == b[j];
      }
    }
    if Distinct(a) && Distinct(b) && Elements(a) !! Elements(b) {
      forall i, j | 0 <= i < j < |ab|
        ensures ab[i] != ab[j]
      {
        if i < |a| && j >= |a| {
          assert a[i] in Elements(a) && b[j - |a|] in Elements(b);
        }
      }
    }
  }

  lemma {:induction false} CheckUnfolds(e: Expr, table: Table, visited: set<string>) returns (u: Unfolding)
    requires Check(e, table, visited).Checked?
    ensures var c := Check(e, table, visited);
            && Unfolds(u, e, table, c.expr)
            && Distinct(References(u))
            && Elements(References(u)) !! visited
            && c.visited == visited + Elements(References(u))
    decreases table.Keys - visited, e
  {
    hide FilterRead, Builtin, Distinct, Elements;
    NoElements();
    match e {
      case NotExpr(x) =>
        var inner := CheckUnfolds(x, table, visited);
        u := Under(inner);
      case AndExpr(l, r) =>
        var left := CheckUnfolds(l, table, visited);
        var right := CheckUnfolds(r, table, Check(l, table, visited).visited);
        u := Both(left, right);
        DistinctConcat(References(left), References(right));
      case OrExpr(l, r) =>
        var left := CheckUnfolds(l, table, visited);
        var right := CheckUnfolds(r, table, Check(l, table, visited).visited);
        u := Both(left, right);
        DistinctConcat(References(left), References(right));
      case LeafExpr(leaf) =>
        if Builtin(leaf.key).Some? {
          u := Kept;
        } else {
          var inner := CheckUnfolds(FilterRead(table[leaf.key]).value, table, visited + {leaf.key});
          u := Followed(leaf.key, inner);
          OneElement(leaf.key);
          DistinctConcat([leaf.key], References(inner));
        }
    }
  }

  lemma NoElements()
    ensures Elements([]) == {} && Distinct([])
  {
  }

  lemma OneElement(n: string)
    ensures Elements([n]) == {n} && Distinct([n])
  {
  }

  lemma {:induction false} UnfoldingChecks(u: Unfolding, e: Expr, table: Table, visited: set<string>, r: Expr)
    requires Unfolds(u, e, table, r)
    requires Distinct(References(u)) && Elements(References(u)) !! visited
    ensures Check(e, table, visited) == Checked(r, visited + Elements(References(u)))
    decreases u
  {
    hide FilterRead, Builtin, Distinct, Elements;
    NoElements();
    match u
    case Kept =>
    case Under(inner) => UnfoldingChecks(inner, e.operand, table, visited, r.operand);
    case Both(left, right) =>
      DistinctConcat(References(left), References(right));
      UnfoldingChecks(left, e.left, table, visited, r.left);
      UnfoldingChecks(right, e.right, table, visited + Elements(References(left)), r.right);
      assert visited + Elements(References(left)) + Elements(References(right)) ==
             visited + Elements(References(u));
    case Followed(name, inner) =>
      OneElement(name);
      DistinctConcat([name], References(inner));
      UnfoldingChecks(inner, FilterRead(table[name]).value, table, visited + {name}, r);
      assert visited + {name} + Elements(References(inner)) == visited + Elements(References(u));
  }

  /** An expression passes exactly when it unfolds to builtin leaves following no name twice and
      none that is visited already; the result is that unfolding. */
  lemma CheckIff(e: Expr, table: Table, visited: set<string>, r: Expr)
    ensures (Check(e, table, visited).Checked? && Check(e, table, visited).expr == r) <==>
            exists u :: Unfolds(u, e, table, r) && Distinct(References(u)) && Elements(References(u)) !! visited
  {
    if Check(e, table, visited).Checked? && Check(e, table, visited).expr == r {
      var u := CheckUnfolds(e, table, visited);
    }
    if exists u :: Unfolds(u, e, table, r) && Distinct(References(u)) && Elements(References(u)) !! visited {
      var u :| Unfolds(u, e, table, r) && Distinct(References(u)) && Elements(References(u)) !! visited;
      UnfoldingChecks(u, e, table, visited, r);
    }
  }

  lemma {:induction false} UnfoldedOnlyBuiltin(u: Unfolding, e: Expr, table: Table, r: Expr)
    requires Unfolds(u, e, table, r)
    ensures OnlyBuiltin(r)
    decreases u
  {
    hide FilterRead, Builtin;
    match u
    case Kept =>
    case Under(inner) => UnfoldedOnlyBuiltin(inner, e.operand, table, r.operand);
    case Both(left, right) =>
      UnfoldedOnlyBuiltin(left, e.left, table, r.left);
      UnfoldedOnlyBuiltin(right, e.right, table, r.right);
    case Followed(name, inner) => UnfoldedOnlyBuiltin(inner, FilterRead(table[name]).value, table, r);
  }

  /** Only builtin leaves of the right type remain. */
  lemma CheckedOnlyBuiltin(e: Expr, table: Table, visited: set<string>)
    requires Check(e, table, visited).Checked?
    ensures OnlyBuiltin(Check(e, table, visited).expr)
  {
    var u := CheckUnfolds(e, table, visited);
    UnfoldedOnlyBuiltin(u, e, table, Check(e, table, visited).expr);
  }

  /** No name is followed again while it is being unfolded. */
  predicate Acyclic(u: Unfolding) {
    match u
    case Kept => true
    case Under(inner) => Acyclic(inner)
    case Both(left, right) => Acyclic(left) && Acyclic(right)
    case Followed(name, inner) => name !in References(inner) && Acyclic(inner)
  }

  lemma {:induction false} DistinctAcyclic(u: Unfolding)
    requires Distinct(References(u))
    ensures Acyclic(u)
    decreases u
  {
    match u
    case Kept =>
    case Under(inner) => DistinctAcyclic(inner);
    case Both(left, right) =>
      DistinctConcat(References(left), References(right));
      DistinctAcyclic(left);
      DistinctAcyclic(right);
    case Followed(name, inner) =>
      OneElement(name);
      DistinctConcat([name], References(inner));
      DistinctAcyclic(inner);
  }

  /** The references followed by an expression that passes form no cycle. */
  lemma CheckedAcyclic(e: Expr, table: Table, visited: set<string>)
    requires Check(e, table, visited).Checked?
    ensures exists u :: Unfolds(u, e, table, Check(e, table, visited).expr) && Acyclic(u)
  {
    var u := CheckUnfolds(e, table, visited);
    DistinctAcyclic(u);
  }

  /** A filter that is named twice is refused, even where no cycle is involved. */
  lemma NamedTwiceRefused(name: string, table: Table, visited: set<string>)
    requires Builtin(name).None? && name in table && name !in visited
    ensures var x := LeafExpr(BoolLeaf(name));
            Check(x, table, visited).Checked? ==> Check(OrExpr(x, x), table, visited).Refused?
  {
    hide FilterRead;
    var x := LeafExpr(BoolLeaf(name));
    var c := Check(x, table, visited);
    if c.Checked? {
      assert name in c.visited;
    }
  }

  // ---------------------------------------------------------------------------------------
  // Evaluation with names
  // ---------------------------------------------------------------------------------------

  /** The truth of an expression that may name filters, looking through at most `depth` nested
      names. */
  ghost function EvalNamed(fold: Glob.Fold, e: Expr, table: Table, t: Track, depth: nat): Option<bool>
    decreases depth, e
  {
    match e
    case AndExpr(l, r) =>
      var a, b := EvalNamed(fold, l, table, t, depth), EvalNamed(fold, r, table, t, depth);
      if a.None? || b.None? then None else Some(a.value && b.value)
    case OrExpr(l, r) =>
      var a, b := EvalNamed(fold, l, table, t, depth), EvalNamed(fold, r, table, t, depth);
      if a.None? || b.None? then None else Some(a.value || b.value)
    case NotExpr(x) =>
      var a := EvalNamed(fold, x, table, t, depth);
      if a.None? then None else Some(!a.value)
    case LeafExpr(leaf) =>
      if Builtin(leaf.key).Some? then Some(LeafHolds(fold, leaf, t))
      else if !leaf.BoolLeaf? || leaf.key !in table || depth == 0 then None
      else
        var read := FilterRead(table[leaf.key]);
        if read.None? then None else EvalNamed(fold, read.value, table, t, depth - 1)
  }

  lemma {:induction false} UnfoldedEval(fold: Glob.Fold, u: Unfolding, e: Expr, table: Table, r: Expr, t: Track,
                                        depth: nat)
    requires Unfolds(u, e, table, r) && |References(u)| <= depth
    ensures EvalNamed(fold, e, table, t, depth) == Some(Holds(fold, r, t))
    decreases u
  {
    hide FilterRead, Builtin, LeafHolds;
    match u
    case Kept =>
    case Under(inner) => UnfoldedEval(fold, inner, e.operand, table, r.operand, t, depth);
    case Both(left, right) =>
      UnfoldedEval(fold, left, e.left, table, r.left, t, depth);
      UnfoldedEval(fold, right, e.right, table, r.right, t, depth);
    case Followed(name, inner) =>
      UnfoldedEval(fold, inner, FilterRead(table[name]).value, table, r, t, depth - 1);
  }

  lemma {:induction false} ReferencesInTable(u: Unfolding, e: Expr, table: Table, r: Expr)
    requires Unfolds(u, e, table, r)
    ensures Elements(References(u)) <= table.Keys
    decreases u
  {
    hide FilterRead, Builtin;
    match u
    case Kept =>
    case Under(inner) => ReferencesInTable(inner, e.operand, table, r.operand);
    case Both(left, right) =>
      ReferencesInTable(left, e.left, table, r.left);
      ReferencesInTable(right, e.right, table, r.right);
    case Followed(name, inner) => ReferencesInTable(inner, FilterRead(table[name]).value, table, r);
  }

  lemma {:induction false} DistinctCount(names: seq<string>)
    requires Distinct(names)
    ensures |Elements(names)| == |names|
    decreases |names|
  {
    if names != [] {
      var rest := names[1..];
      DistinctCount(rest);
      OneElement(names[0]);
      assert names == [names[0]] + rest;
      DistinctConcat([names[0]], rest);
    }
  }

  lemma SubsetCount<T>(a: set<T>, b: set<T>)
    requires a <= b
    ensures |a| <= |b|
  {
    assert b == a + (b - a);
  }

  /** An expression that passes evaluates, with its names left in place, as the result does; no
      more names are nested than there are filters. */
  lemma CheckedEval(fold: Glob.Fold, e: Expr, table: Table, visited: set<string>, t: Track)
    requires Check(e, table, visited).Checked?
    ensures EvalNamed(fold, e, table, t, |table|) == Some(Holds(fold, Check(e, table, visited).expr, t))
  {
    hide Check, Unfolds, EvalNamed;
    var u := CheckUnfolds(e, table, visited);
    var r := Check(e, table, visited).expr;
    ReferencesInTable(u, e, table, r);
    DistinctCount(References(u));
    SubsetCount(Elements(References(u)), table.Keys);
    UnfoldedEval(fold, u, e, table, r, t, |table|);
  }

  // ---------------------------------------------------------------------------------------
  // The conjunction of the selected filters
  // ---------------------------------------------------------------------------------------

  datatype Stat = Ignore | Yes | No

  datatype Selection = Selection(name: string, filter: string, stat: Stat)

  datatype Conjunction = Unreadable | Conjunction(expr: Option<Expr>)

  function Signed(e: Expr, stat: Stat): Expr {
    if stat == No then NotExpr(e) else e
  }

  function Conjoined(sofar: Option<Expr>, list: seq<Selection>): Conjunction
    decreases |list|
  {
    if list == [] then Conjunction(sofar)
    else if list[0].stat == Ignore then Conjoined(sofar, list[1..])
    else
      var read := FilterRead(list[0].filter);
      if read.None? then Unreadable
      else
        var e := Signed(read.value, list[0].stat);
        Conjoined(Some(if sofar.None? then e else AndExpr(sofar.value, e)), list[1..])
  }

  /** Whether a track meets every selected filter in the way it is selected, the filters being
      read with their names left in place. */
  ghost predicate MeetsAll(fold: Glob.Fold, list: seq<Selection>, table: Table, t: Track, depth: nat) {
    forall i :: 0 <= i < |list| && list[i].stat != Ignore ==>
      && FilterRead(list[i].filter).Some?
      && EvalNamed(fold, FilterRead(list[i].filter).value, table, t, depth) == Some(list[i].stat == Yes)
  }

  lemma {:induction false} ConjoinedEval(fold: Glob.Fold, sofar: Option<Expr>, list: seq<Selection>, table: Table,
                                         t: Track, depth: nat, b: bool)
    requires Conjoined(sofar, list).Conjunction? && Conjoined(sofar, list).expr.Some?
    requires EvalNamed(fold, Conjoined(sofar, list).expr.value, table, t, depth) == Some(b)
    ensures sofar.Some? ==> EvalNamed(fold, sofar.value, table, t, depth).Some?
    ensures b <==> (sofar.Some? ==> EvalNamed(fold, sofar.value, table, t, depth) == Some(true))
                   && MeetsAll(fold, list, table, t, depth)
    decreases |list|
  {
    hide FilterRead;
    if list != [] {
      var rest := list[1..];
      var next := if list[0].stat == Ignore then sofar
                  else
                    var e := Signed(FilterRead(list[0].filter).value, list[0].stat);
                    Some(if sofar.None? then e else AndExpr(sofar.value, e));
      ConjoinedEval(fold, next, rest, table, t, depth, b);
      MeetsHead(fold, list, table, t, depth);
    }
  }

  lemma MeetsHead(fold: Glob.Fold, list: seq<Selection>, table: Table, t: Track, depth: nat)
    requires list != []
    ensures MeetsAll(fold, list, table, t, depth) <==>
            && MeetsAll(fold, list[1..], table, t, depth)
            && (list[0].stat != Ignore ==>
                  && FilterRead(list[0].filter).Some?
                  && EvalNamed(fold, FilterRead(list[0].filter).value, table, t, depth)
                     == Some(list[0].stat == Yes))
  {
    hide FilterRead, EvalNamed;
    var rest := list[1..];
    assert forall i :: 0 <= i < |rest| ==> rest[i] == list[i + 1];
    assert forall i :: 1 <= i < |list| ==> list[i] == rest[i - 1];
  }

  /** A selection that is activated filters for exactly the tracks that meet every filter that is
      selected and none that is selected with a negation. */
  lemma ActivatedMeans(fold: Glob.Fold, list: seq<Selection>, table: Table, visited: set<string>, t: Track)
    requires Conjoined(None, list).Conjunction? && Conjoined(None, list).expr.Some?
    requires Check(Conjoined(None, list).expr.value, table, visited).Checked?
    ensures Holds(fold, Check(Conjoined(None, list).expr.value, table, visited).expr, t) <==>
            MeetsAll(fold, list, table, t, |table|)
  {
    hide Check, Conjoined, EvalNamed, MeetsAll, Holds;
    var e := Conjoined(None, list).expr.value;
    CheckedEval(fold, e, table, visited, t);
    ConjoinedEval(fold, None, list, table, t, |table|, Holds(fold, Check(e, table, visited).expr, t));
  }

  // ---------------------------------------------------------------------------------------
  // The list of filters
  // ---------------------------------------------------------------------------------------

  class FilterEntry {
    const name: string
    const filter: string
    var visited: bool
    var selStat: Stat
    var actStat: Stat

    constructor (name: string, filter: string)
      ensures this.name == name && this.filter == filter && selStat == Ignore && actStat == Ignore
    {
      this.name, this.filter, visited := name, filter, false;
      selStat, actStat := Ignore, Ignore;
    }
  }

  function TableOf(entries: seq<FilterEntry>): (table: Table)
    ensures forall i :: 0 <= i < |entries| ==> entries[i].name in table
    ensures table.Keys == set e | e in entries :: e.name
  {
    if entries == [] then map[] else TableOf(entries[1..])[entries[0].name := entries[0].filter]
  }

  ghost function VisitedOf(entries: seq<FilterEntry>): set<string>
    reads entries`visited
  {
    set e | e in entries && e.visited :: e.name
  }

  function SelectionOf(entries: seq<FilterEntry>): (list: seq<Selection>)
    reads entries`selStat
    ensures |list| == |entries|
    ensures forall i :: 0 <= i < |list| ==>
              list[i] == Selection(entries[i].name, entries[i].filter, entries[i].selStat)
  {
    if entries == [] then []
    else [Selection(entries[0].name, entries[0].filter, entries[0].selStat)] + SelectionOf(entries[1..])
  }

  /** Which way each filter is active. */
  function ActiveOf(entries: seq<FilterEntry>): (stats: seq<Stat>)
    reads entries`actStat
    ensures |stats| == |entries|
    ensures forall i :: 0 <= i < |stats| ==> stats[i] == entries[i].actStat
  {
    if entries == [] then [] else [entries[0].actStat] + ActiveOf(entries[1..])
  }

  function StatsOf(list: seq<Selection>): (stats: seq<Stat>)
    ensures |stats| == |list|
    ensures forall i :: 0 <= i < |stats| ==> stats[i] == list[i].stat
  {
    seq(|list|, i requires 0 <= i < |list| => list[i].stat)
  }

  /** The names a selection marks as visited before anything is followed. */
  function SelectedNames(list: seq<Selection>): set<string> {
    set i | 0 <= i < |list| && list[i].stat != Ignore :: list[i].name
  }

  ghost predicate DistinctEntries(entries: seq<FilterEntry>) {
    forall i, j :: 0 <= i < j < |entries| ==> entries[i].name != entries[j].name
  }

  lemma {:induction false} TableEntry(entries: seq<FilterEntry>, i: nat)
    requires DistinctEntries(entries) && i < |entries|
    ensures entries[i].name in TableOf(entries) && TableOf(entries)[entries[i].name] == entries[i].filter
    decreases |entries|
  {
    if i > 0 {
      TableEntry(entries[1..], i - 1);
    }
  }

  datatype Activation = Left | Set(filter: Option<Expr>)

  /** The library filter a selection gives, or Left when the old one stays. */
  function ActivationOf(list: seq<Selection>, table: Table): Activation {
    var all := Conjoined(None, list);
    if all.Unreadable? then Left
    else if all.expr.None? then Set(None)
    else
      var c := Check(all.expr.value, table, SelectedNames(list));
      if c.Refused? then Left else Set(Some(c.expr))
  }

  lemma UnreadableLeft(list: seq<Selection>, table: Table)
    requires Conjoined(None, list).Unreadable?
    ensures ActivationOf(list, table) == Left
  {
  }

  lemma ReadableActivation(list: seq<Selection>, table: Table, expr: Option<Expr>)
    requires Conjoined(None, list) == Conjunction(expr)
    ensures ActivationOf(list, table) ==
            if expr.None? then Set(None)
            else
              var c := Check(expr.value, table, SelectedNames(list));
              if c.Refused? then Left else Set(Some(c.expr))
  {
  }

  /** An activated selection filters for the tracks that meet all of it. */
  lemma ActivationMeans(fold: Glob.Fold, list: seq<Selection>, table: Table, t: Track)
    requires ActivationOf(list, table).Set? && ActivationOf(list, table).filter.Some?
    ensures OnlyBuiltin(ActivationOf(list, table).filter.value)
    ensures Holds(fold, ActivationOf(list, table).filter.value, t) <==> MeetsAll(fold, list, table, t, |table|)
  {
    hide Check, Conjoined, Holds, MeetsAll;
    var e := Conjoined(None, list).expr.value;
    CheckedOnlyBuiltin(e, table, SelectedNames(list));
    ActivatedMeans(fold, list, table, SelectedNames(list), t);
  }

  // ---------------------------------------------------------------------------------------
  // Which selections can be activated
  // ---------------------------------------------------------------------------------------

  /** Every selected filter can be read. */
  predicate AllRead(list: seq<Selection>) {
    forall i :: 0 <= i < |list| && list[i].stat != Ignore ==> FilterRead(list[i].filter).Some?
  }

  predicate NoneSelected(list: seq<Selection>) {
    forall i :: 0 <= i < |list| ==> list[i].stat == Ignore
  }

  lemma AllReadHead(list: seq<Selection>)
    requires list != []
    ensures AllRead(list) <==> (list[0].stat != Ignore ==> FilterRead(list[0].filter).Some?) && AllRead(list[1..])
    ensures NoneSelected(list) <==> list[0].stat == Ignore && NoneSelected(list[1..])
  {
    hide FilterRead;
    var rest := list[1..];
    assert forall i :: 0 <= i < |rest| ==> rest[i] == list[i + 1];
    assert forall i :: 1 <= i < |list| ==> list[i] == rest[i - 1];
  }

  /** The selected filters are joined, however they are selected, exactly when each can be read. */
  lemma {:induction false} ConjoinedIff(sofar: Option<Expr>, list: seq<Selection>)
    ensures Conjoined(sofar, list).Conjunction? <==> AllRead(list)
    ensures AllRead(list) ==> (Conjoined(sofar, list).expr.None? <==> sofar.None? && NoneSelected(list))
    decreases |list|
  {
    hide FilterRead, AllRead, NoneSelected;
    if list == [] {
      NothingSelected();
    } else {
      AllReadHead(list);
      ConjoinedHead(sofar, list);
      if list[0].stat == Ignore || FilterRead(list[0].filter).Some? {
        ConjoinedIff(WithHead(sofar, list), list[1..]);
      }
    }
  }

  lemma NothingSelected()
    ensures AllRead([]) && NoneSelected([])
  {
  }

  /** What has been joined after the first filter of a list. */
  function WithHead(sofar: Option<Expr>, list: seq<Selection>): Option<Expr>
    requires list != [] && (list[0].stat == Ignore || FilterRead(list[0].filter).Some?)
  {
    if list[0].stat == Ignore then sofar
    else
      var e := Signed(FilterRead(list[0].filter).value, list[0].stat);
      Some(if sofar.None? then e else AndExpr(sofar.value, e))
  }

  lemma {:induction false} ConjoinedHead(sofar: Option<Expr>, list: seq<Selection>)
    requires list != []
    ensures Conjoined(sofar, list) ==
            if list[0].stat == Ignore || FilterRead(list[0].filter).Some?
            then Conjoined(WithHead(sofar, list), list[1..]) else Unreadable
  {
    hide FilterRead;
  }

  ghost predicate CanUnfold(u: Unfolding, e: Expr, table: Table) {
    exists r :: Unfolds(u, e, table, r)
  }

  /** Unfoldings for the selected filters of a list; the others may have any. */
  ghost predicate UnfoldAll(us: seq<Unfolding>, list: seq<Selection>, table: Table) {
    && |us| == |list|
    && forall i :: 0 <= i < |list| && list[i].stat != Ignore ==>
         FilterRead(list[i].filter).Some? && CanUnfold(us[i], FilterRead(list[i].filter).value, table)
  }

  /** The names that the selected filters follow, in order. */
  function AllReferences(us: seq<Unfolding>, list: seq<Selection>): seq<string>
    requires |us| == |list|
    decreases |list|
  {
    if list == [] then []
    else (if list[0].stat == Ignore then [] else References(us[0])) + AllReferences(us[1..], list[1..])
  }

  lemma UnfoldAllHead(us: seq<Unfolding>, list: seq<Selection>, table: Table)
    requires |us| == |list| && list != []
    ensures UnfoldAll(us, list, table) <==>
            && (list[0].stat != Ignore ==>
                  FilterRead(list[0].filter).Some? && CanUnfold(us[0], FilterRead(list[0].filter).value, table))
            && UnfoldAll(us[1..], list[1..], table)
  {
    hide FilterRead, CanUnfold;
    var rest, more := list[1..], us[1..];
    assert forall i :: 0 <= i < |rest| ==> rest[i] == list[i + 1] && more[i] == us[i + 1];
    assert forall i :: 1 <= i < |list| ==> list[i] == rest[i - 1] && us[i] == more[i - 1];
  }

  lemma ConcatNames(a: seq<string>, b: seq<string>, c: seq<string>)
    ensures a + (b + c) == a + b + c && [] + a == a && a + [] == a
  {
  }

  /** Unfolding one filter more. */
  function JoinUnfolding(sofar: Option<Unfolding>, u: Unfolding, stat: Stat): Unfolding {
    var signed := if stat == No then Under(u) else u;
    if sofar.None? then signed else Both(sofar.value, signed)
  }

  function OptReferences(u: Option<Unfolding>): seq<string> {
    if u.None? then [] else References(u.value)
  }

  lemma JoinUnfolds(sofar: Option<Expr>, u0: Option<Unfolding>, list: seq<Selection>, u: Unfolding, table: Table)
    requires list != [] && list[0].stat != Ignore && FilterRead(list[0].filter).Some?
    requires sofar.Some? == u0.Some? && (sofar.Some? ==> CanUnfold(u0.value, sofar.value, table))
    requires CanUnfold(u, FilterRead(list[0].filter).value, table)
    ensures CanUnfold(JoinUnfolding(u0, u, list[0].stat), WithHead(sofar, list).value, table)
    ensures References(JoinUnfolding(u0, u, list[0].stat)) == OptReferences(u0) + References(u)
  {
    hide FilterRead;
    var x := FilterRead(list[0].filter).value;
    var r :| Unfolds(u, x, table, r);
    var signed := if list[0].stat == No then Under(u) else u;
    var s := Signed(r, list[0].stat);
    assert Unfolds(signed, Signed(x, list[0].stat), table, s);
    if sofar.Some? {
      var r0 :| Unfolds(u0.value, sofar.value, table, r0);
      assert Unfolds(Both(u0.value, signed), AndExpr(sofar.value, Signed(x, list[0].stat)), table, AndExpr(r0, s));
    } else {
      ConcatNames(References(u), [], []);
    }
  }

  /** From unfoldings of the filters to one of their conjunction, which follows the same names. */
  lemma {:induction false} PartsUnfold(sofar: Option<Expr>, u0: Option<Unfolding>, list: seq<Selection>,
                                       us: seq<Unfolding>, table: Table) returns (u: Unfolding)
    requires Conjoined(sofar, list).Conjunction? && Conjoined(sofar, list).expr.Some?
    requires |us| == |list| && UnfoldAll(us, list, table)
    requires sofar.Some? == u0.Some? && (sofar.Some? ==> CanUnfold(u0.value, sofar.value, table))
    ensures CanUnfold(u, Conjoined(sofar, list).expr.value, table)
    ensures References(u) == OptReferences(u0) + AllReferences(us, list)
    decreases |list|
  {
    hide FilterRead, CanUnfold, UnfoldAll, Conjoined, References;
    if list == [] {
      NothingJoined(sofar);
      u := u0.value;
      ConcatNames(References(u), [], []);
    } else {
      UnfoldAllHead(us, list, table);
      ConjoinedHead(sofar, list);
      if list[0].stat == Ignore {
        u := PartsUnfold(sofar, u0, list[1..], us[1..], table);
        ConcatNames(AllReferences(us[1..], list[1..]), [], []);
      } else {
        JoinUnfolds(sofar, u0, list, us[0], table);
        var joined := JoinUnfolding(u0, us[0], list[0].stat);
        u := PartsUnfold(WithHead(sofar, list), Some(joined), list[1..], us[1..], table);
        ConcatNames(OptReferences(u0), References(us[0]), AllReferences(us[1..], list[1..]));
      }
    }
  }

  lemma {:induction false} NothingJoined(sofar: Option<Expr>)
    ensures Conjoined(sofar, []) == Conjunction(sofar)
  {
  }

  lemma SplitJoined(sofar: Option<Expr>, list: seq<Selection>, u: Unfolding, table: Table)
    returns (u0: Option<Unfolding>, head: Unfolding)
    requires list != [] && list[0].stat != Ignore && FilterRead(list[0].filter).Some?
    requires CanUnfold(u, WithHead(sofar, list).value, table)
    ensures sofar.Some? == u0.Some? && (sofar.Some? ==> CanUnfold(u0.value, sofar.value, table))
    ensures CanUnfold(head, FilterRead(list[0].filter).value, table)
    ensures References(u) == OptReferences(u0) + References(head)
  {
    hide FilterRead;
    var x := FilterRead(list[0].filter).value;
    var r :| Unfolds(u, WithHead(sofar, list).value, table, r);
    var signed, s := u, r;
    u0 := None;
    if sofar.Some? {
      u0, signed, s := Some(u.left), u.right, r.right;
      assert Unfolds(u.left, sofar.value, table, r.left);
    }
    assert Unfolds(signed, Signed(x, list[0].stat), table, s);
    head := signed;
    if list[0].stat == No {
      head := signed.inner;
      assert Unfolds(head, x, table, s.operand);
    }
    ConcatNames(References(u), [], []);
  }

  /** And back: an unfolding of the conjunction consists of unfoldings of the filters. */
  lemma {:induction false} UnfoldsParts(sofar: Option<Expr>, list: seq<Selection>, u: Unfolding, table: Table)
    returns (u0: Option<Unfolding>, us: seq<Unfolding>)
    requires Conjoined(sofar, list).Conjunction? && Conjoined(sofar, list).expr.Some?
    requires CanUnfold(u, Conjoined(sofar, list).expr.value, table)
    ensures |us| == |list| && UnfoldAll(us, list, table)
    ensures sofar.Some? == u0.Some? && (sofar.Some? ==> CanUnfold(u0.value, sofar.value, table))
    ensures References(u) == OptReferences(u0) + AllReferences(us, list)
    decreases |list|
  {
    hide FilterRead, CanUnfold, UnfoldAll, Conjoined, References;
    if list == [] {
      NothingJoined(sofar);
      u0, us := Some(u), [];
      NothingToUnfold(table);
      ConcatNames(References(u), [], []);
    } else {
      ConjoinedHead(sofar, list);
      var next, more := UnfoldsParts(WithHead(sofar, list), list[1..], u, table);
      if list[0].stat == Ignore {
        u0, us := next, [Kept] + more;
        assert us[1..] == more;
        UnfoldAllHead(us, list, table);
        ConcatNames(AllReferences(more, list[1..]), [], []);
      } else {
        var head;
        u0, head := SplitJoined(sofar, list, next.value, table);
        us := [head] + more;
        assert us[1..] == more;
        UnfoldAllHead(us, list, table);
        ConcatNames(OptReferences(u0), References(head), AllReferences(more, list[1..]));
      }
    }
  }

  lemma NothingToUnfold(table: Table)
    ensures UnfoldAll([], [], table)
  {
  }

  /** The selected filters can be unfolded following no name twice and none that is selected. */
  ghost predicate CanActivate(list: seq<Selection>, table: Table) {
    exists us: seq<Unfolding> ::
      && |us| == |list|
      && UnfoldAll(us, list, table)
      && Distinct(AllReferences(us, list))
      && Elements(AllReferences(us, list)) !! SelectedNames(list)
  }

  lemma {:induction false} NoReferences(us: seq<Unfolding>, list: seq<Selection>)
    requires |us| == |list| && NoneSelected(list)
    ensures AllReferences(us, list) == []
    decreases |list|
  {
    if list != [] {
      AllReadHead(list);
      NoReferences(us[1..], list[1..]);
    }
  }

  lemma NoneCanActivate(list: seq<Selection>, table: Table)
    requires NoneSelected(list)
    ensures CanActivate(list, table)
  {
    var us := seq(|list|, _ => Kept);
    NoReferences(us, list);
    NoElements();
    assert UnfoldAll(us, list, table);
  }

  lemma UnfoldAllReads(us: seq<Unfolding>, list: seq<Selection>, table: Table)
    requires UnfoldAll(us, list, table)
    ensures AllRead(list)
  {
    hide FilterRead, CanUnfold;
  }

  lemma ConjunctionActivates(list: seq<Selection>, table: Table, e: Expr)
    requires Conjoined(None, list) == Conjunction(Some(e))
    ensures Check(e, table, SelectedNames(list)).Checked? <==> CanActivate(list, table)
  {
    hide FilterRead, Conjoined, UnfoldAll, AllReferences, References, Distinct, Elements, Check;
    var visited := SelectedNames(list);
    if Check(e, table, visited).Checked? {
      var u := CheckUnfolds(e, table, visited);
      assert CanUnfold(u, e, table);
      var u0, us := UnfoldsParts(None, list, u, table);
      ConcatNames(AllReferences(us, list), [], []);
    }
    if CanActivate(list, table) {
      var us :| && |us| == |list| && UnfoldAll(us, list, table)
                && Distinct(AllReferences(us, list))
                && Elements(AllReferences(us, list)) !! SelectedNames(list);
      var u := PartsUnfold(None, None, list, us, table);
      ConcatNames(AllReferences(us, list), [], []);
      var r :| Unfolds(u, e, table, r);
      UnfoldingChecks(u, e, table, visited, r);
    }
  }

  /** A selection can be activated exactly when every selected filter, positively or negatively
      selected, can be read and unfolded, following no name twice and none that is selected. An
      empty selection always can, and leaves no filter. */
  lemma ActivationIff(list: seq<Selection>, table: Table)
    ensures ActivationOf(list, table).Set? <==> CanActivate(list, table)
    ensures ActivationOf(list, table) == Set(None) <==> NoneSelected(list)
  {
    hide FilterRead, Conjoined, CanActivate, Check, AllRead, NoneSelected;
    ConjoinedIff(None, list);
    if !AllRead(list) {
      if CanActivate(list, table) {
        CanActivateReads(list, table);
      }
      if NoneSelected(list) {
        NoneRead(list);
      }
    } else if NoneSelected(list) {
      NoneCanActivate(list, table);
    } else {
      ConjunctionActivates(list, table, Conjoined(None, list).expr.value);
    }
  }

  lemma CanActivateReads(list: seq<Selection>, table: Table)
    requires CanActivate(list, table)
    ensures AllRead(list)
  {
    hide UnfoldAll, AllReferences, Distinct, Elements, AllRead;
    var us :| && |us| == |list| && UnfoldAll(us, list, table)
              && Distinct(AllReferences(us, list))
              && Elements(AllReferences(us, list)) !! SelectedNames(list);
    UnfoldAllReads(us, list, table);
  }

  lemma NoneRead(list: seq<Selection>)
    requires NoneSelected(list)
    ensures AllRead(list)
  {
  }

  /** A filter text with the names in it replaced. */
  function ParsedFilter(text: string, table: Table): Option<Expr> {
    var read := FilterRead(text);
    if read.None? then None
    else
      var c := Check(read.value, table, {});
      if c.Refused? then None else Some(c.expr)
  }

  /** A filter typed by the user holds of a track as it does with its names left in place. */
  lemma ParsedFilterMeans(fold: Glob.Fold, text: string, table: Table, t: Track)
    requires ParsedFilter(text, table).Some?
    ensures OnlyBuiltin(ParsedFilter(text, table).value)
    ensures EvalNamed(fold, FilterRead(text).value, table, t, |table|) ==
            Some(Holds(fold, ParsedFilter(text, table).value, t))
  {
    hide Check, Holds, EvalNamed, FilterRead;
    var e := FilterRead(text).value;
    CheckedOnlyBuiltin(e, table, {});
    CheckedEval(fold, e, table, {}, t);
  }

  /** It is accepted, with this result, exactly when it can be read and unfolds to the result following no
      name twice. */
  lemma ParsedFilterIff(text: string, table: Table, r: Expr)
    ensures ParsedFilter(text, table) == Some(r) <==>
            && FilterRead(text).Some?
            && exists u :: Unfolds(u, FilterRead(text).value, table, r) && Distinct(References(u))
  {
    hide Check, FilterRead, Unfolds, Distinct, References, Elements;
    if FilterRead(text).Some? {
      CheckIff(FilterRead(text).value, table, {}, r);
    }
  }

  class FilterList {
    const entries: seq<FilterEntry>
    var recursiveFilter: Option<string>
    /** The expression the library shows, if there is one. */
    var libFilter: Option<Expr>

    ghost predicate Valid() {
      DistinctEntries(entries)
    }

    constructor (entries: seq<FilterEntry>)
      requires DistinctEntries(entries)
      ensures this.entries == entries && Valid() && libFilter.None?
    {
      this.entries := entries;
      recursiveFilter, libFilter := None, None;
    }

    method FindFilter(name: string) returns (i: nat)
      requires Valid()
      ensures i <= |entries|
      ensures i < |entries| ==> entries[i].name == name
      ensures i == |entries| ==> forall j :: 0 <= j < |entries| ==> entries[j].name != name
    {
      i := 0;
      while i < |entries| && entries[i].name != name
        invariant i <= |entries|
        invariant forall j :: 0 <= j < i ==> entries[j].name != name
      {
        i := i + 1;
      }
    }

    /** The text of a filter that is followed for the first time. */
    method GetFilter(name: string) returns (text: Option<string>)
      requires Valid()
      modifies this`recursiveFilter, entries`visited
      ensures text.Some? <==> name in TableOf(entries) && name !in old(VisitedOf(entries))
      ensures text.Some? ==> text.value == TableOf(entries)[name]
      ensures VisitedOf(entries) == old(VisitedOf(entries)) + if text.Some? then {name} else {}
      ensures name in old(VisitedOf(entries)) ==> recursiveFilter == Some(name)
      ensures name !in old(VisitedOf(entries)) ==> recursiveFilter == old(recursiveFilter)
    {
      hide TableOf;
      var i := FindFilter(name);
      if i < |entries| {
        TableEntry(entries, i);
        var e := entries[i];
        VisitedEntry(entries, i);
        if e.visited {
          recursiveFilter := Some(e.name);
          return None;
        }
        e.visited := true;
        return Some(e.filter);
      }
      NotInTable(entries, name);
      return None;
    }

    method CheckLeaves(e: Expr) returns (r: Option<Expr>)
      requires Valid()
      modifies this`recursiveFilter, entries`visited
      ensures var c := Check(e, TableOf(entries), old(VisitedOf(entries)));
              && r == (match c case Checked(x, _) => Some(x) case Refused(_, _) => None)
              && VisitedOf(entries) == c.visited
              && recursiveFilter == (if c.Refused? && c.error.Recursive? then Some(c.error.name)
                                     else old(recursiveFilter))
      decreases TableOf(entries).Keys - VisitedOf(entries), e
    {
      hide TableOf, VisitedOf, FilterRead, Builtin;
      match e {
        case AndExpr(left, right) =>
          var l := CheckLeaves(left);
          if l.None? {
            return None;
          }
          var x := CheckLeaves(right);
          return if x.None? then None else Some(AndExpr(l.value, x.value));
        case OrExpr(left, right) =>
          var l := CheckLeaves(left);
          if l.None? {
            return None;
          }
          var x := CheckLeaves(right);
          return if x.None? then None else Some(OrExpr(l.value, x.value));
        case NotExpr(operand) =>
          var x := CheckLeaves(operand);
          return if x.None? then None else Some(NotExpr(x.value));
        case LeafExpr(leaf) =>
          var t := Builtin(leaf.key);
          if t.Some? {
            return if HasType(leaf, t.value) then Some(e) else None;
          }
          if !leaf.BoolLeaf? {
            return None;
          }
          ghost var v0 := VisitedOf(entries);
          var text := GetFilter(leaf.key);
          if text.None? {
            VisitedInTable(entries);
            return None;
          }
          var read := FilterRead(text.value);
          if read.None? {
            return None;
          }
          r := CheckLeaves(read.value);
      }
    }

    /** Makes the current selection active, unless it cannot be read or expanded. */
    method Activate(winActivate: bool)
      requires Valid()
      modifies this`recursiveFilter, this`libFilter, entries`visited, entries`actStat
      ensures var list := old(SelectionOf(entries));
              var a := if !winActivate && old(ActiveOf(entries)) == StatsOf(list) then Left
                       else ActivationOf(list, TableOf(entries));
              && libFilter == (if a.Left? then old(libFilter) else a.filter)
              && ActiveOf(entries) == (if a.Left? then old(ActiveOf(entries)) else StatsOf(list))
    {
      hide TableOf, ActivationOf, SelectionOf, ActiveOf, StatsOf;
      var same := CheckPending();
      if same && !winActivate {
        return;
      }
      ApplySelection();
    }

    method ApplySelection()
      requires Valid()
      modifies this`recursiveFilter, this`libFilter, entries`visited, entries`actStat
      ensures var list := old(SelectionOf(entries));
              var a := ActivationOf(list, TableOf(entries));
              && libFilter == (if a.Left? then old(libFilter) else a.filter)
              && ActiveOf(entries) == (if a.Left? then old(ActiveOf(entries)) else StatsOf(list))
    {
      hide *;
      var ready, expr := Prepare();
      if ready {
        SetActive();
        libFilter := expr;
      }
    }

    /** Reads, joins and expands the selected filters. */
    method Prepare() returns (ready: bool, expr: Option<Expr>)
      requires Valid()
      modifies this`recursiveFilter, entries`visited
      ensures ready <==> ActivationOf(old(SelectionOf(entries)), TableOf(entries)).Set?
      ensures ready ==> ActivationOf(old(SelectionOf(entries)), TableOf(entries)).filter == expr
    {
      hide TableOf, ActivationOf, VisitedOf, SelectedNames, SelectionOf, Conjoined, Check;
      ghost var list := SelectionOf(entries);
      ready, expr := MarkSelected();
      if !ready {
        UnreadableLeft(list, TableOf(entries));
        return;
      }
      recursiveFilter := None;
      ReadableActivation(list, TableOf(entries), expr);
      if expr.Some? {
        expr := CheckLeaves(expr.value);
        ready := expr.Some?;
      }
    }

    method CheckPending() returns (same: bool)
      ensures same <==> ActiveOf(entries) == StatsOf(SelectionOf(entries))
    {
      same := true;
      for i := 0 to |entries|
        invariant same <==> forall j :: 0 <= j < i ==> entries[j].actStat == entries[j].selStat
      {
        if entries[i].actStat != entries[i].selStat {
          same := false;
        }
      }
      ghost var a, b := ActiveOf(entries), StatsOf(SelectionOf(entries));
      if a == b {
        assert forall j :: 0 <= j < |entries| ==> a[j] == entries[j].actStat && b[j] == entries[j].selStat;
      }
    }

    /** Marks exactly the selected filters visited and joins their expressions. */
    method MarkSelected() returns (readable: bool, expr: Option<Expr>)
      requires Valid()
      modifies entries`visited
      ensures readable <==> Conjoined(None, old(SelectionOf(entries))).Conjunction?
      ensures readable ==> Conjoined(None, old(SelectionOf(entries))).expr == expr
      ensures readable ==> VisitedOf(entries) == SelectedNames(old(SelectionOf(entries)))
    {
      hide FilterRead;
      ghost var list := SelectionOf(entries);
      expr := None;
      var i := 0;
      while i < |entries|
        invariant 0 <= i <= |entries|
        invariant forall j :: 0 <= j < i ==> (entries[j].visited <==> list[j].stat != Ignore)
        invariant Conjoined(None, list) == Conjoined(expr, list[i..])
      {
        assert list[i..][1..] == list[i + 1..];
        var f := entries[i];
        f.visited := false;
        if f.selStat != Ignore {
          f.visited := true;
          var e := FilterRead(f.filter);
          if e.None? {
            return false, None;
          }
          var signed := e.value;
          if f.selStat == No {
            signed := NotExpr(signed);
          }
          expr := Some(if expr.None? then signed else AndExpr(expr.value, signed));
        }
        i := i + 1;
      }
      readable := true;
      assert list[i..] == [];
      assert VisitedOf(entries) == SelectedNames(list) by { MarkedNames(entries, list); }
    }

    /** Nothing for a missing text as well as for one that cannot be read or expanded. */
    method ParseFilter(val: Option<string>) returns (e: Option<Expr>)
      requires Valid()
      modifies this`recursiveFilter, entries`visited
      ensures e == if val.None? then None else ParsedFilter(val.value, TableOf(entries))
    {
      hide TableOf, FilterRead, Check, VisitedOf;
      e := None;
      if val.Some? {
        e := FilterRead(val.value);
        if e.None? {
          return None;
        }
      }
      MarkNone();
      recursiveFilter := None;
      if e.Some? {
        e := CheckLeaves(e.value);
      }
    }

    method MarkNone()
      modifies entries`visited
      ensures VisitedOf(entries) == {}
    {
      for i := 0 to |entries|
        invariant forall j :: 0 <= j < i ==> !entries[j].visited
      {
        entries[i].visited := false;
      }
    }

    /** An anonymous filter replaces the active ones, unless it cannot be read or expanded. */
    method SetAnonymous(val: Option<string>)
      requires Valid()
      modifies this`recursiveFilter, this`libFilter, entries`visited, entries`actStat
      ensures var e := if val.None? then None else ParsedFilter(val.value, TableOf(entries));
              if val.Some? && e.None? then
                libFilter == old(libFilter) && ActiveOf(entries) == old(ActiveOf(entries))
              else
                libFilter == e && forall i :: 0 <= i < |entries| ==> entries[i].actStat == Ignore
    {
      hide TableOf, ParsedFilter, ActiveOf;
      var e := None;
      if val.Some? {
        e := ParseFilter(val);
        if e.None? {
          return;
        }
      }
      for i := 0 to |entries|
        invariant forall j :: 0 <= j < i ==> entries[j].actStat == Ignore
      {
        entries[i].actStat := Ignore;
      }
      libFilter := e;
    }

    method SetActive()
      modifies entries`actStat
      ensures ActiveOf(entries) == StatsOf(old(SelectionOf(entries)))
    {
      for i := 0 to |entries|
        invariant forall j :: 0 <= j < i ==> entries[j].actStat == entries[j].selStat
      {
        entries[i].actStat := entries[i].selStat;
      }
    }
  }

  lemma VisitedInTable(entries: seq<FilterEntry>)
    ensures VisitedOf(entries) <= TableOf(entries).Keys
  {
  }

  lemma MarkedNames(entries: seq<FilterEntry>, list: seq<Selection>)
    requires |list| == |entries|
    requires forall j :: 0 <= j < |entries| ==> list[j].name == entries[j].name
    requires forall j :: 0 <= j < |entries| ==> (entries[j].visited <==> list[j].stat != Ignore)
    ensures VisitedOf(entries) == SelectedNames(list)
  {
    forall n | n in SelectedNames(list)
      ensures n in VisitedOf(entries)
    {
      var i :| 0 <= i < |list| && list[i].stat != Ignore && list[i].name == n;
      assert entries[i] in entries;
    }
    forall n | n in VisitedOf(entries)
      ensures n in SelectedNames(list)
    {
      var e :| e in entries && e.visited && e.name == n;
      var i :| 0 <= i < |entries| && entries[i] == e;
      assert list[i].name == n;
    }
  }

  lemma NotInTable(entries: seq<FilterEntry>, name: string)
    requires forall j :: 0 <= j < |entries| ==> entries[j].name != name
    ensures name !in TableOf(entries) && name !in VisitedOf(entries)
  {
  }

  lemma VisitedEntry(entries: seq<FilterEntry>, i: nat)
    requires DistinctEntries(entries) && i < |entries|
    ensures entries[i].name in VisitedOf(entries) <==> entries[i].visited
  {
  }
}

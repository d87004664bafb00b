/** Editable track lists: moving the marked tracks or the selected one, and the counters. */
module Editable {
  import opened Basics

  datatype Track = Track(info: nat, marked: bool)

  // ---------------------------------------------------------------------------------------
  // Picking tracks out of a list
  // ---------------------------------------------------------------------------------------

  /** The tracks whose flag is `b`, in order. */
  function Pick(ts: seq<Track>, flags: seq<bool>, b: bool): (r: seq<Track>)
    requires |ts| == |flags|
    ensures |r| <= |ts|
    decreases |ts|
  {
    if ts == [] then []
    else if flags[0] == b then [ts[0]] + Pick(ts[1..], flags[1..], b)
    else Pick(ts[1..], flags[1..], b)
  }

  lemma {:induction false} PickConcat(a: seq<Track>, f: seq<bool>, c: seq<Track>, g: seq<bool>, b: bool)
    requires |a| == |f| && |c| == |g|
    ensures Pick(a + c, f + g, b) == Pick(a, f, b) + Pick(c, g, b)
    decreases |a|
  {
    if a == [] {
      assert a + c == c && f + g == g;
    } else {
      PickConcat(a[1..], f[1..], c, g, b);
      assert (a + c)[1..] == a[1..] + c && (f + g)[1..] == f[1..] + g;
    }
  }

  lemma {:induction false} PickOne(t: Track, flag: bool, b: bool)
    ensures Pick([t], [flag], b) == if flag == b then [t] else []
  {
  }

  /** One track more. */
  lemma PickNext(ts: seq<Track>, flags: seq<bool>, j: nat, b: bool)
    requires |ts| == |flags| && j < |ts|
    ensures Pick(ts[..j + 1], flags[..j + 1], b) ==
            Pick(ts[..j], flags[..j], b) + (if flags[j] == b then [ts[j]] else [])
  {
    PickConcat(ts[..j], flags[..j], [ts[j]], [flags[j]], b);
    PickOne(ts[j], flags[j], b);
    assert ts[..j + 1] == ts[..j] + [ts[j]] && flags[..j + 1] == flags[..j] + [flags[j]];
  }

  lemma {:induction false} PickAll(ts: seq<Track>, flags: seq<bool>, b: bool)
    requires |ts| == |flags| && forall i :: 0 <= i < |flags| ==> flags[i] == b
    ensures Pick(ts, flags, b) == ts && Pick(ts, flags, !b) == []
    decreases |ts|
  {
    if ts != [] {
      PickAll(ts[1..], flags[1..], b);
      assert ts == [ts[0]] + ts[1..];
    }
  }

  lemma {:induction false} PickSplits(ts: seq<Track>, flags: seq<bool>)
    requires |ts| == |flags|
    ensures multiset(Pick(ts, flags, true)) + multiset(Pick(ts, flags, false)) == multiset(ts)
    decreases |ts|
  {
    if ts != [] {
      PickSplits(ts[1..], flags[1..]);
      assert ts == [ts[0]] + ts[1..];
    }
  }

  // ---------------------------------------------------------------------------------------
  // Moving a block
  // ---------------------------------------------------------------------------------------

  /** The tracks that are not flagged, with the flagged ones in one block behind a place. The
      place of the list head is 0, that of the k-th track is k. */
  function Moved(ts: seq<Track>, flags: seq<bool>, place: nat): seq<Track>
    requires |ts| == |flags| && place <= |ts|
  {
    Pick(ts[..place], flags[..place], false) + Pick(ts, flags, true) + Pick(ts[place..], flags[place..], false)
  }

  function Constant(n: nat, b: bool): (r: seq<bool>)
    ensures |r| == n && forall i :: 0 <= i < n ==> r[i] == b
  {
    seq(n, _ => b)
  }

  /** The flags after the move. */
  function MovedFlags(ts: seq<Track>, flags: seq<bool>, place: nat): (r: seq<bool>)
    requires |ts| == |flags| && place <= |ts|
    ensures |r| == |Moved(ts, flags, place)|
  {
    Constant(|Pick(ts[..place], flags[..place], false)|, false)
    + Constant(|Pick(ts, flags, true)|, true)
    + Constant(|Pick(ts[place..], flags[place..], false)|, false)
  }

  lemma PickParts(ts: seq<Track>, flags: seq<bool>, place: nat, b: bool)
    requires |ts| == |flags| && place <= |ts|
    ensures Pick(ts, flags, b) ==
            Pick(ts[..place], flags[..place], b) + Pick(ts[place..], flags[place..], b)
  {
    PickConcat(ts[..place], flags[..place], ts[place..], flags[place..], b);
    assert ts == ts[..place] + ts[place..] && flags == flags[..place] + flags[place..];
  }

  lemma PickThree(x: seq<Track>, fx: seq<bool>, y: seq<Track>, fy: seq<bool>, z: seq<Track>, fz: seq<bool>, b: bool)
    requires |x| == |fx| && |y| == |fy| && |z| == |fz|
    ensures Pick(x + y + z, fx + fy + fz, b) == Pick(x, fx, b) + Pick(y, fy, b) + Pick(z, fz, b)
  {
    hide Pick;
    PickConcat(x + y, fx + fy, z, fz, b);
    PickConcat(x, fx, y, fy, b);
  }

  lemma OuterEmpty(y: seq<Track>)
    ensures [] + y + [] == y
  {
  }

  lemma InnerEmpty(x: seq<Track>, z: seq<Track>)
    ensures x + [] + z == x + z
  {
  }

  lemma PickBlocks(x: seq<Track>, y: seq<Track>, z: seq<Track>)
    ensures var f := Constant(|x|, false) + Constant(|y|, true) + Constant(|z|, false);
            Pick(x + y + z, f, true) == y && Pick(x + y + z, f, false) == x + z
  {
    hide Pick, Constant;
    var fx, fy, fz := Constant(|x|, false), Constant(|y|, true), Constant(|z|, false);
    PickAll(x, fx, false);
    PickAll(y, fy, true);
    PickAll(z, fz, false);
    PickThree(x, fx, y, fy, z, fz, true);
    PickThree(x, fx, y, fy, z, fz, false);
    OuterEmpty(y);
    InnerEmpty(x, z);
  }

  /** The move is stable: the flagged tracks keep their order, the others keep theirs, and none
      appears or disappears. */
  lemma MovedIsStable(ts: seq<Track>, flags: seq<bool>, place: nat)
    requires |ts| == |flags| && place <= |ts|
    ensures var r, f := Moved(ts, flags, place), MovedFlags(ts, flags, place);
            && multiset(r) == multiset(ts)
            && Pick(r, f, true) == Pick(ts, flags, true)
            && Pick(r, f, false) == Pick(ts, flags, false)
  {
    hide Pick, Constant;
    var x := Pick(ts[..place], flags[..place], false);
    var y := Pick(ts, flags, true);
    var z := Pick(ts[place..], flags[place..], false);
    PickParts(ts, flags, place, false);
    PickSplits(ts, flags);
    assert multiset(x + y + z) == multiset(y) + multiset(x + z);
    PickBlocks(x, y, z);
  }

  /** Behind the insertion point comes the block: the track of the place stays in front of it. */
  lemma BlockFollowsPlace(ts: seq<Track>, flags: seq<bool>, place: nat)
    requires |ts| == |flags| && place <= |ts| && (place > 0 ==> !flags[place - 1])
    ensures var r := Moved(ts, flags, place);
            var start := |Pick(ts[..place], flags[..place], false)|;
            var block := Pick(ts, flags, true);
            && start + |block| <= |r| && r[start..start + |block|] == block
            && (place > 0 ==> start > 0 && r[start - 1] == ts[place - 1])
            && (place == 0 ==> start == 0)
  {
    hide Pick;
    var x := Pick(ts[..place], flags[..place], false);
    if place > 0 {
      PickNext(ts, flags, place - 1, false);
      assert x[|x| - 1] == ts[place - 1];
    } else {
      PickAll(ts[..0], flags[..0], false);
    }
  }

  // ---------------------------------------------------------------------------------------
  // The list with its selection
  // ---------------------------------------------------------------------------------------

  /** The tracks, the row that is selected, and whether the user rather than a sort key decides
      the order. */
  datatype State = State(tracks: seq<Track>, selected: Option<nat>, unsorted: bool)

  function Marks(ts: seq<Track>): (r: seq<bool>)
    ensures |r| == |ts| && forall i :: 0 <= i < |ts| ==> r[i] == ts[i].marked
  {
    seq(|ts|, i requires 0 <= i < |ts| => ts[i].marked)
  }

  function CountMarked(ts: seq<Track>): (n: nat)
    ensures n <= |ts|
    decreases |ts|
  {
    if ts == [] then 0 else (if ts[0].marked then 1 else 0) + CountMarked(ts[1..])
  }

  lemma {:induction false} CountConcat(a: seq<Track>, b: seq<Track>)
    ensures CountMarked(a + b) == CountMarked(a) + CountMarked(b)
    decreases |a|
  {
    if a == [] {
      assert a + b == b;
    } else {
      CountConcat(a[1..], b);
      assert (a + b)[1..] == a[1..] + b;
    }
  }

  lemma {:induction false} CountOne(t: Track)
    ensures CountMarked([t]) == if t.marked then 1 else 0
  {
  }

  lemma WithoutOne(b: seq<Track>, k: nat)
    requires k < |b|
    ensures var rest := b[..k] + b[k + 1..];
            && multiset(rest) == multiset(b) - multiset{b[k]}
            && CountMarked(b) == (if b[k].marked then 1 else 0) + CountMarked(rest)
  {
    hide CountMarked;
    assert b == b[..k] + ([b[k]] + b[k + 1..]);
    CountConcat(b[..k], [b[k]] + b[k + 1..]);
    CountConcat([b[k]], b[k + 1..]);
    CountConcat(b[..k], b[k + 1..]);
    CountOne(b[k]);
  }

  lemma {:induction false} CountPermuted(a: seq<Track>, b: seq<Track>)
    requires multiset(a) == multiset(b)
    ensures CountMarked(a) == CountMarked(b)
    decreases |a|
  {
    if a == [] {
      assert |b| == |multiset(b)| == 0;
    } else {
      assert a[0] in multiset(a) && a[0] in b;
      var k :| 0 <= k < |b| && b[k] == a[0];
      WithoutOne(b, k);
      assert a == [a[0]] + a[1..];
      assert multiset(a) == multiset{a[0]} + multiset(a[1..]);
      CountPermuted(a[1..], b[..k] + b[k + 1..]);
    }
  }

  /** The places of the circular list around a place. */
  function Next(place: nat, n: nat): nat {
    if place >= n then 0 else place + 1
  }

  function Prev(place: nat, n: nat): nat {
    if place == 0 then n else place - 1
  }

  /** The first place at or before this one that is the head or an unmarked track. */
  function Unmarked(ts: seq<Track>, place: nat): (r: nat)
    requires place <= |ts|
    ensures r <= place && (r > 0 ==> !ts[r - 1].marked)
    ensures forall i :: r <= i < place ==> ts[i].marked
  {
    if place > 0 && ts[place - 1].marked then Unmarked(ts, place - 1) else place
  }

  predicate WellFormed(s: State) {
    s.selected.Some? ==> s.selected.value < |s.tracks|
  }

  function OnlyRow(n: nat, row: nat): (r: seq<bool>)
    ensures |r| == n && forall i :: 0 <= i < n ==> r[i] == (i == row)
  {
    seq(n, i => i == row)
  }

  /** What a move takes along: the marked tracks, or the selected one if none is marked. */
  function Flags(s: State): (r: seq<bool>)
    requires s.selected.Some?
    ensures |r| == |s.tracks|
  {
    if CountMarked(s.tracks) > 0 then Marks(s.tracks) else OnlyRow(|s.tracks|, s.selected.value)
  }

  /** The topmost moved track is selected after the move. */
  function MovedTo(s: State, place: nat): State
    requires s.selected.Some? && place <= |s.tracks|
  {
    State(Moved(s.tracks, Flags(s), place), Some(|Pick(s.tracks[..place], Flags(s)[..place], false)|), s.unsorted)
  }

  function AfterPlace(s: State): (r: nat)
    requires WellFormed(s) && s.selected.Some?
    ensures r <= |s.tracks|
  {
    var item := s.selected.value + 1;
    if CountMarked(s.tracks) == 0 then Next(item, |s.tracks|) else Unmarked(s.tracks, item)
  }

  function BeforePlace(s: State): (r: nat)
    requires WellFormed(s) && s.selected.Some?
    ensures r <= |s.tracks|
  {
    var item := Prev(s.selected.value + 1, |s.tracks|);
    if CountMarked(s.tracks) == 0 then Prev(item, |s.tracks|) else Unmarked(s.tracks, item)
  }

  predicate Movable(s: State) {
    |s.tracks| > 1 && s.unsorted && s.selected.Some?
  }

  function MoveAfter(s: State): State
    requires WellFormed(s)
  {
    if Movable(s) then MovedTo(s, AfterPlace(s)) else s
  }

  function MoveBefore(s: State): State
    requires WellFormed(s)
  {
    if Movable(s) then MovedTo(s, BeforePlace(s)) else s
  }

  // ---------------------------------------------------------------------------------------
  // Moving one track there and back
  // ---------------------------------------------------------------------------------------

  lemma PickRow(ts: seq<Track>, flags: seq<bool>, row: nat)
    requires |ts| == |flags| && row < |ts| && forall i :: 0 <= i < |ts| ==> flags[i] == (i == row)
    ensures Pick(ts, flags, true) == [ts[row]] && Pick(ts, flags, false) == ts[..row] + ts[row + 1..]
  {
    hide Pick;
    var t, f := [ts[row]], [flags[row]];
    assert ts == ts[..row] + t + ts[row + 1..] && flags == flags[..row] + f + flags[row + 1..];
    PickThree(ts[..row], flags[..row], t, f, ts[row + 1..], flags[row + 1..], true);
    PickThree(ts[..row], flags[..row], t, f, ts[row + 1..], flags[row + 1..], false);
    PickAll(ts[..row], flags[..row], false);
    PickAll(ts[row + 1..], flags[row + 1..], false);
    PickOne(ts[row], flags[row], true);
    PickOne(ts[row], flags[row], false);
    OuterEmpty(t);
    InnerEmpty(ts[..row], ts[row + 1..]);
  }

  /** Moving a single track. */
  lemma OneMoved(ts: seq<Track>, row: nat, place: nat)
    requires row < |ts| && place <= |ts|
    ensures var flags := OnlyRow(|ts|, row);
            var start := |Pick(ts[..place], flags[..place], false)|;
            if place <= row then
              start == place && Moved(ts, flags, place) == ts[..place] + [ts[row]] + (ts[place..row] + ts[row + 1..])
            else
              start == place - 1 && Moved(ts, flags, place) == (ts[..row] + ts[row + 1..place]) + [ts[row]] + ts[place..]
  {
    hide Pick;
    var flags := OnlyRow(|ts|, row);
    PickRow(ts, flags, row);
    if place <= row {
      PickAll(ts[..place], flags[..place], false);
      PickRow(ts[place..], flags[place..], row - place);
      assert ts[place..][..row - place] == ts[place..row] && ts[place..][row - place + 1..] == ts[row + 1..];
    } else {
      PickRow(ts[..place], flags[..place], row);
      PickAll(ts[place..], flags[place..], false);
      assert ts[..place][..row] == ts[..row] && ts[..place][row + 1..] == ts[row + 1..place];
    }
  }

  lemma MovedWellFormed(s: State, place: nat)
    requires WellFormed(s) && s.selected.Some? && place <= |s.tracks|
    ensures var r := MovedTo(s, place);
            && multiset(r.tracks) == multiset(s.tracks) && |r.tracks| == |s.tracks|
            && CountMarked(r.tracks) == CountMarked(s.tracks) && WellFormed(r)
  {
    hide Pick, MovedFlags;
    var r := MovedTo(s, place);
    MovedIsStable(s.tracks, Flags(s), place);
    assert |multiset(r.tracks)| == |multiset(s.tracks)|;
    CountPermuted(r.tracks, s.tracks);
    FlagsTake(s);
  }

  /** A move takes at least one track along. */
  lemma FlagsTake(s: State)
    requires WellFormed(s) && s.selected.Some?
    ensures |Pick(s.tracks, Flags(s), true)| > 0
  {
    if CountMarked(s.tracks) > 0 {
      PickMarked(s.tracks, Marks(s.tracks));
    } else {
      PickRow(s.tracks, Flags(s), s.selected.value);
    }
  }

  lemma {:induction false} PickMarked(ts: seq<Track>, flags: seq<bool>)
    requires |flags| == |ts| && forall i :: 0 <= i < |ts| ==> flags[i] == ts[i].marked
    ensures |Pick(ts, flags, true)| == CountMarked(ts)
    decreases |ts|
  {
    if ts != [] {
      PickMarked(ts[1..], flags[1..]);
    }
  }

  /** One row down; from the last row to the first. */
  lemma OneDown(s: State)
    requires WellFormed(s) && CountMarked(s.tracks) == 0
    requires |s.tracks| > 1 && s.unsorted && s.selected.Some?
    ensures var ts, row := s.tracks, s.selected.value;
            MoveAfter(s) ==
            if row == |ts| - 1 then State([ts[row]] + ts[..row], Some(0), true)
            else State(ts[..row] + [ts[row + 1]] + [ts[row]] + ts[row + 2..], Some(row + 1), true)
  {
    hide Moved, Pick;
    var ts, row := s.tracks, s.selected.value;
    OneMoved(ts, row, AfterPlace(s));
    if row == |ts| - 1 {
      assert ts[..0] + [ts[row]] + (ts[0..row] + ts[row + 1..]) == [ts[row]] + ts[..row];
    } else {
      assert ts[row + 1..row + 2] == [ts[row + 1]];
    }
  }

  /** One row up; from the first row to the last. */
  lemma OneUp(s: State)
    requires WellFormed(s) && CountMarked(s.tracks) == 0
    requires |s.tracks| > 1 && s.unsorted && s.selected.Some?
    ensures var ts, row := s.tracks, s.selected.value;
            MoveBefore(s) ==
            if row == 0 then State(ts[1..] + [ts[0]], Some(|ts| - 1), true)
            else State(ts[..row - 1] + [ts[row]] + [ts[row - 1]] + ts[row + 1..], Some(row - 1), true)
  {
    hide Moved, Pick;
    var ts, row := s.tracks, s.selected.value;
    OneMoved(ts, row, BeforePlace(s));
    if row == 0 {
      assert (ts[..0] + ts[1..|ts|]) + [ts[0]] + ts[|ts|..] == ts[1..] + [ts[0]];
    } else {
      assert ts[row - 1..row] == [ts[row - 1]];
      assert ts[..row - 1] + [ts[row]] + ([ts[row - 1]] + ts[row + 1..]) ==
             ts[..row - 1] + [ts[row]] + [ts[row - 1]] + ts[row + 1..];
    }
  }

  /** With nothing marked, moving down and up again restores the list and the selection, and so
      does moving up and down, at both ends too. */
  lemma ThereAndBack(s: State)
    requires WellFormed(s) && CountMarked(s.tracks) == 0
    ensures WellFormed(MoveAfter(s)) && MoveBefore(MoveAfter(s)) == s
    ensures WellFormed(MoveBefore(s)) && MoveAfter(MoveBefore(s)) == s
  {
    if Movable(s) {
      DownAndUp(s);
      UpAndDown(s);
    }
  }

  lemma DownAndUp(s: State)
    requires WellFormed(s) && CountMarked(s.tracks) == 0 && Movable(s)
    ensures WellFormed(MoveAfter(s)) && MoveBefore(MoveAfter(s)) == s
  {
    hide MoveBefore, MovedTo, CountMarked;
    MovedWellFormed(s, AfterPlace(s));
    OneDown(s);
    var r := MoveAfter(s);
    var ts, row := s.tracks, s.selected.value;
    OneUp(r);
    if row == |ts| - 1 {
      assert r.tracks[1..] == ts[..row];
      assert ts[..row] + [ts[row]] == ts;
    } else {
      SwapBack(ts, row);
    }
  }

  lemma SwapBack(ts: seq<Track>, row: nat)
    requires row + 1 < |ts|
    ensures var r := ts[..row] + [ts[row + 1]] + [ts[row]] + ts[row + 2..];
            r[..row] + [r[row + 1]] + [r[row]] + r[row + 2..] == ts
  {
    var r := ts[..row] + [ts[row + 1]] + [ts[row]] + ts[row + 2..];
    assert r[..row] == ts[..row] && r[row + 2..] == ts[row + 2..];
    assert ts == ts[..row] + [ts[row]] + [ts[row + 1]] + ts[row + 2..];
  }

  lemma MovedBefore(s: State)
    requires WellFormed(s) && Movable(s)
    ensures var r := MoveBefore(s);
            && WellFormed(r) && Movable(r) && |r.tracks| == |s.tracks|
            && CountMarked(r.tracks) == CountMarked(s.tracks)
  {
    hide MovedTo;
    MovedWellFormed(s, BeforePlace(s));
    assert MovedTo(s, BeforePlace(s)).unsorted by { MovedStaysMovable(s, BeforePlace(s)); }
    assert MovedTo(s, BeforePlace(s)).selected.Some? by { MovedStaysMovable(s, BeforePlace(s)); }
  }

  lemma MovedStaysMovable(s: State, place: nat)
    requires WellFormed(s) && Movable(s) && place <= |s.tracks|
    ensures MovedTo(s, place).unsorted && MovedTo(s, place).selected.Some?
  {
  }

  lemma LastToFront(ts: seq<Track>, r: seq<Track>)
    requires |ts| > 0 && r == ts[1..] + [ts[0]]
    ensures [r[|r| - 1]] + r[..|r| - 1] == ts
  {
  }

  lemma UpAndDown(s: State)
    requires WellFormed(s) && CountMarked(s.tracks) == 0 && Movable(s)
    ensures WellFormed(MoveBefore(s)) && MoveAfter(MoveBefore(s)) == s
  {
    hide MoveAfter, MoveBefore, MovedTo, CountMarked;
    MovedBefore(s);
    OneUp(s);
    var r := MoveBefore(s);
    var ts, row := s.tracks, s.selected.value;
    OneDown(r);
    if row == 0 {
      LastToFront(ts, r.tracks);
    } else {
      SwapBack(ts, row - 1);
      assert r.selected == Some(row - 1) && row - 1 != |r.tracks| - 1;
      assert MoveAfter(r).tracks == ts;
    }
  }

  // ---------------------------------------------------------------------------------------
  // Moving a block, with marks or without
  // ---------------------------------------------------------------------------------------

  /** The track behind which the block goes does not move itself. */
  lemma PlaceStays(s: State)
    requires WellFormed(s) && Movable(s)
    ensures AfterPlace(s) > 0 ==> !Flags(s)[AfterPlace(s) - 1]
    ensures BeforePlace(s) > 0 ==> !Flags(s)[BeforePlace(s) - 1]
  {
  }

  /** What a move to a place promises: the tracks taken along stay in order and follow the track
      of the place directly, the first of them is selected, the other tracks stay in order, and
      the marks are as many as before. */
  ghost predicate StableMove(s: State, r: State, place: nat)
    requires WellFormed(s) && s.selected.Some? && place <= |s.tracks|
  {
    var flags := Flags(s);
    var block := Pick(s.tracks, flags, true);
    var f := MovedFlags(s.tracks, flags, place);
    && multiset(r.tracks) == multiset(s.tracks)
    && |f| == |r.tracks|
    && Pick(r.tracks, f, false) == Pick(s.tracks, flags, false)
    && WellFormed(r) && r.selected.Some?
    && r.selected.value + |block| <= |r.tracks|
    && r.tracks[r.selected.value..r.selected.value + |block|] == block != []
    && (if place > 0 then r.selected.value > 0 && r.tracks[r.selected.value - 1] == s.tracks[place - 1]
        else r.selected.value == 0)
    && CountMarked(r.tracks) == CountMarked(s.tracks)
  }

  lemma MovedToIsStable(s: State, place: nat)
    requires WellFormed(s) && s.selected.Some? && place <= |s.tracks|
    requires place > 0 ==> !Flags(s)[place - 1]
    ensures StableMove(s, MovedTo(s, place), place)
  {
    hide Pick, Moved, Flags, CountMarked, MovedFlags, WellFormed;
    MovedWellFormed(s, place);
    MovedIsStable(s.tracks, Flags(s), place);
    BlockFollowsPlace(s.tracks, Flags(s), place);
    FlagsTake(s);
  }

  lemma BothMovesAreStable(s: State)
    requires WellFormed(s) && Movable(s)
    ensures StableMove(s, MoveAfter(s), AfterPlace(s))
    ensures StableMove(s, MoveBefore(s), BeforePlace(s))
  {
    hide StableMove, MovedTo, AfterPlace, BeforePlace, Flags;
    PlaceStays(s);
    MovedToIsStable(s, AfterPlace(s));
    MovedToIsStable(s, BeforePlace(s));
  }

  // ---------------------------------------------------------------------------------------
  // Where marked tracks go
  // ---------------------------------------------------------------------------------------

  /** The tracks that are marked, or those that are not, in order. */
  function Only(ts: seq<Track>, marked: bool): (r: seq<Track>)
    decreases |ts|
  {
    if ts == [] then []
    else (if ts[0].marked == marked then [ts[0]] else []) + Only(ts[1..], marked)
  }

  lemma {:induction false} PickIsOnly(ts: seq<Track>, flags: seq<bool>, marked: bool)
    requires |flags| == |ts| && forall i :: 0 <= i < |ts| ==> flags[i] == ts[i].marked
    ensures Pick(ts, flags, marked) == Only(ts, marked)
    decreases |ts|
  {
    if ts != [] {
      PickIsOnly(ts[1..], flags[1..], marked);
    }
  }

  lemma {:induction false} OnlyConcat(a: seq<Track>, b: seq<Track>, marked: bool)
    ensures Only(a + b, marked) == Only(a, marked) + Only(b, marked)
    decreases |a|
  {
    if a == [] {
      assert a + b == b;
    } else {
      assert (a + b)[1..] == a[1..] + b;
      OnlyConcat(a[1..], b, marked);
    }
  }

  lemma {:induction false} AllMarked(ts: seq<Track>)
    requires forall i :: 0 <= i < |ts| ==> ts[i].marked
    ensures Only(ts, false) == []
    decreases |ts|
  {
    if ts != [] {
      AllMarked(ts[1..]);
    }
  }

  /** Going back over marked tracks leaves the unmarked ones on their sides. */
  lemma SidesKept(ts: seq<Track>, place: nat, row: nat)
    requires place <= row <= |ts| && forall i :: place <= i < row ==> ts[i].marked
    ensures Only(ts[..place], false) == Only(ts[..row], false) && Only(ts[place..], false) == Only(ts[row..], false)
  {
    var middle := ts[place..row];
    AllMarked(middle);
    assert ts[..row] == ts[..place] + middle && ts[place..] == middle + ts[row..];
    OnlyConcat(ts[..place], middle, false);
    OnlyConcat(middle, ts[row..], false);
  }

  lemma MarkedMoved(s: State, place: nat, row: nat)
    requires WellFormed(s) && s.selected.Some? && CountMarked(s.tracks) > 0
    requires place <= row <= |s.tracks| && forall i :: place <= i < row ==> s.tracks[i].marked
    ensures var ts := s.tracks;
            MovedTo(s, place) ==
            State(Only(ts[..row], false) + Only(ts, true) + Only(ts[row..], false), Some(|Only(ts[..row], false)|), s.unsorted)
  {
    hide Pick, Only;
    var ts, flags := s.tracks, Marks(s.tracks);
    PickIsOnly(ts[..place], flags[..place], false);
    PickIsOnly(ts, flags, true);
    PickIsOnly(ts[place..], flags[place..], false);
    SidesKept(ts, place, row);
  }

  /** With something marked, moving after the selected track puts all marked tracks, in order, behind
      the unmarked tracks up to the selected row and before the others; moving before it counts
      the selected row among the others. */
  lemma MarkedMoves(s: State)
    requires WellFormed(s) && CountMarked(s.tracks) > 0
    requires |s.tracks| > 1 && s.unsorted && s.selected.Some?
    ensures var ts, row := s.tracks, s.selected.value;
            && MoveAfter(s) ==
               State(Only(ts[..row + 1], false) + Only(ts, true) + Only(ts[row + 1..], false),
                     Some(|Only(ts[..row + 1], false)|), true)
            && MoveBefore(s) ==
               State(Only(ts[..row], false) + Only(ts, true) + Only(ts[row..], false),
                     Some(|Only(ts[..row], false)|), true)
  {
    hide MovedTo, Only, CountMarked;
    MarkedMoved(s, AfterPlace(s), s.selected.value + 1);
    MarkedMoved(s, BeforePlace(s), s.selected.value);
  }

  /** A single track, a list kept by a sort key and a list without selection stay as they are. */
  lemma NothingMoves(s: State)
    requires WellFormed(s) && (|s.tracks| <= 1 || !s.unsorted || s.selected.None?)
    ensures MoveAfter(s) == s && MoveBefore(s) == s
  {
  }

  // ---------------------------------------------------------------------------------------
  // The list, changed in place
  // ---------------------------------------------------------------------------------------

  /** Tracks with marks as a function of the track. */
  function Remarked(ts: seq<Track>, mark: Track -> bool): (r: seq<Track>)
    ensures |r| == |ts| && forall i :: 0 <= i < |ts| ==> r[i] == Track(ts[i].info, mark(ts[i]))
  {
    seq(|ts|, i requires 0 <= i < |ts| => Track(ts[i].info, mark(ts[i])))
  }

  lemma CountReplaced(ts: seq<Track>, i: nat, t: Track)
    requires i < |ts|
    ensures CountMarked(ts[i := t]) ==
            CountMarked(ts) - (if ts[i].marked then 1 else 0) + (if t.marked then 1 else 0)
  {
    var a, b := ts[..i], ts[i + 1..];
    assert ts == a + ([ts[i]] + b) && ts[i := t] == a + ([t] + b);
    CountConcat(a, [ts[i]] + b);
    CountConcat([ts[i]], b);
    CountConcat(a, [t] + b);
    CountConcat([t], b);
    CountOne(ts[i]);
    CountOne(t);
  }

  /** What holds while marked tracks are taken out of a list, `seen` of it having been looked at. */
  ghost predicate Taking(ts: seq<Track>, after: nat, seen: nat, item: nat, tracks: seq<Track>, tmp: seq<Track>, place: nat) {
    var flags := Marks(ts);
    && seen <= |ts| && after <= |ts|
    && item == |Pick(ts[..seen], flags[..seen], false)|
    && tracks == Pick(ts[..seen], flags[..seen], false) + ts[seen..]
    && tmp == Reversed(Pick(ts[..seen], flags[..seen], true))
    && (seen <= after ==> place == item + (after - seen))
    && (seen > after ==> place == |Pick(ts[..after], flags[..after], false)| <= item)
  }

  lemma NothingTaken(ts: seq<Track>, after: nat)
    requires after <= |ts|
    ensures Taking(ts, after, 0, 0, ts, [], after)
  {
    PickNone(ts, Marks(ts));
    assert [] + ts[0..] == ts;
  }

  lemma TakingNext(ts: seq<Track>, after: nat, seen: nat, item: nat, tracks: seq<Track>, tmp: seq<Track>, place: nat)
    requires Taking(ts, after, seen, item, tracks, tmp, place) && item < |tracks|
    ensures seen < |ts|
    ensures if tracks[item].marked then
              Taking(ts, after, seen + 1, item, tracks[..item] + tracks[item + 1..], [tracks[item]] + tmp,
                     if item < place then place - 1 else place)
            else Taking(ts, after, seen + 1, item + 1, tracks, tmp, place)
  {
    hide Pick, Reversed;
    var flags := Marks(ts);
    var kept, taken := Pick(ts[..seen], flags[..seen], false), Pick(ts[..seen], flags[..seen], true);
    assert seen < |ts|;
    PickNext(ts, flags, seen, false);
    PickNext(ts, flags, seen, true);
    var t := ts[seen];
    assert tracks[item] == t;
    if t.marked {
      ReversedSnoc(taken, t);
      assert kept + [] == kept;
      assert tracks[..item] == kept && tracks[item + 1..] == ts[seen + 1..];
    } else {
      assert taken + [] == taken;
      assert kept + ts[seen..] == kept + [t] + ts[seen + 1..];
    }
  }

  lemma TakenAll(ts: seq<Track>, after: nat, seen: nat, item: nat, tracks: seq<Track>, tmp: seq<Track>, place: nat)
    requires Taking(ts, after, seen, item, tracks, tmp, place) && item >= |tracks|
    ensures var flags := Marks(ts);
            && tracks == Pick(ts, flags, false) && tmp == Reversed(Pick(ts, flags, true))
            && place == |Pick(ts[..after], flags[..after], false)|
  {
    hide Pick, Reversed;
    var flags := Marks(ts);
    assert seen == |ts|;
    assert ts[..seen] == ts && flags[..seen] == flags;
    assert Pick(ts, flags, false) + [] == Pick(ts, flags, false);
    if seen == after {
      assert place == item;
    }
  }

  lemma ReversedOne(t: Track)
    ensures Reversed([t]) == [t]
  {
  }

  lemma {:induction false} PickNone(ts: seq<Track>, flags: seq<bool>)
    requires |ts| == |flags|
    ensures Pick(ts[..0], flags[..0], false) == [] && Pick(ts[..0], flags[..0], true) == []
  {
  }

  lemma PutBack(front: seq<Track>, block: seq<Track>, k: nat, back: seq<Track>)
    requires 0 < k <= |block|
    ensures var ts := front + block[k..] + back;
            ts[..|front|] + [block[k - 1]] + ts[|front|..] == front + block[k - 1..] + back
  {
    var ts := front + block[k..] + back;
    assert ts[..|front|] == front && ts[|front|..] == block[k..] + back;
    assert block[k - 1..] == [block[k - 1]] + block[k..];
  }

  /** The list that the window shows. */
  class TrackList {
    var tracks: seq<Track>
    var nrTracks: int
    var nrMarked: int
    var selected: Option<nat>
    var unsorted: bool

    function Value(): State
      reads this
    {
      State(tracks, selected, unsorted)
    }

    predicate Valid()
      reads this
    {
      WellFormed(Value()) && nrTracks == |tracks| && nrMarked == CountMarked(tracks)
    }

    constructor ()
      ensures Valid() && tracks == []
    {
      tracks, nrTracks, nrMarked, selected, unsorted := [], 0, 0, None, true;
    }

    /** Takes the tracks that move out of the list, the last one first in `tmp`. The place moves
        with the track that it stands for. */
    method TakeOut(after: nat) returns (tmp: seq<Track>, place: nat)
      requires Valid() && selected.Some? && after <= |tracks|
      requires after > 0 ==> !Flags(Value())[after - 1]
      modifies this`tracks
      ensures var ts, flags := old(tracks), old(Flags(Value()));
              && tracks == Pick(ts[..after], flags[..after], false) + Pick(ts[after..], flags[after..], false)
              && tmp == Reversed(Pick(ts, flags, true))
              && place == |Pick(ts[..after], flags[..after], false)|
    {
      hide Pick, Reversed, CountMarked;
      ghost var ts, flags := tracks, Flags(Value());
      PickParts(ts, flags, after, false);
      if nrMarked != 0 {
        tmp, place := TakeMarked(after);
      } else {
        var row := selected.value;
        PickRow(ts, flags, row);
        if after > row {
          PickRow(ts[..after], flags[..after], row);
        } else {
          PickAll(ts[..after], flags[..after], false);
        }
        tmp := [tracks[row]];
        ReversedOne(tracks[row]);
        tracks := tracks[..row] + tracks[row + 1..];
        place := if after > row then after - 1 else after;
      }
    }

    method TakeMarked(after: nat) returns (tmp: seq<Track>, place: nat)
      requires after <= |tracks|
      modifies this`tracks
      ensures var ts, flags := old(tracks), Marks(old(tracks));
              && tracks == Pick(ts, flags, false)
              && tmp == Reversed(Pick(ts, flags, true))
              && place == |Pick(ts[..after], flags[..after], false)|
    {
      ghost var ts, flags := tracks, Marks(tracks);
      hide Taking, Marks, Pick, Reversed;
      tmp, place := [], after;
      var item := 0;
      ghost var seen := 0;
      NothingTaken(ts, after);
      while item < |tracks|
        invariant Taking(ts, after, seen, item, tracks, tmp, place)
        decreases |ts| - seen
      {
        TakingNext(ts, after, seen, item, tracks, tmp, place);
        if tracks[item].marked {
          tmp := [tracks[item]] + tmp;
          tracks := tracks[..item] + tracks[item + 1..];
          if item < place {
            place := place - 1;
          }
        } else {
          item := item + 1;
        }
        seen := seen + 1;
      }
      TakenAll(ts, after, seen, item, tracks, tmp, place);
    }

    /** Moves the marked tracks, or the selected one, behind a place and selects the first. */
    method MoveSel(after: nat)
      requires Valid() && selected.Some? && after <= |tracks|
      requires after > 0 ==> !Flags(Value())[after - 1]
      modifies this`tracks, this`selected
      ensures Value() == MovedTo(old(Value()), after)
      ensures Valid()
    {
      hide Pick, Reversed, CountMarked, Flags, WellFormed;
      ghost var s := Value();
      ghost var block := Pick(tracks, Flags(s), true);
      var tmp, place := TakeOut(after);
      ghost var front, back := tracks[..place], tracks[place..];
      ghost var k: nat := |block|;
      assert block[..k] == block && block[k..] == [];
      assert tracks == front + [] + back;
      while tmp != []
        invariant k <= |block| && tmp == Reversed(block[..k])
        invariant place == |front| && tracks == front + block[k..] + back
        decreases |tmp|
      {
        assert block[..k] == block[..k - 1] + [block[k - 1]];
        ReversedSnoc(block[..k - 1], block[k - 1]);
        var item := tmp[0];
        tmp := tmp[1..];
        PutBack(front, block, k, back);
        tracks := tracks[..place] + [item] + tracks[place..];
        k := k - 1;
      }
      assert block[k..] == block;
      selected := Some(place);
      MovedWellFormed(s, after);
    }

    method FindInsertAfterPoint(start: nat) returns (item: nat)
      requires Valid() && selected.Some? && start == selected.value + 1
      ensures item == AfterPlace(Value())
    {
      if nrMarked == 0 {
        return Next(start, |tracks|);
      }
      item := start;
      while item != 0 && tracks[item - 1].marked
        invariant item <= |tracks| && Unmarked(tracks, item) == Unmarked(tracks, start)
      {
        item := item - 1;
      }
    }

    method FindInsertBeforePoint(start: nat) returns (item: nat)
      requires Valid() && selected.Some? && start == selected.value + 1
      ensures item == BeforePlace(Value())
    {
      item := Prev(start, |tracks|);
      if nrMarked == 0 {
        return Prev(item, |tracks|);
      }
      ghost var first := item;
      while item != 0 && tracks[item - 1].marked
        invariant item <= |tracks| && Unmarked(tracks, item) == Unmarked(tracks, first)
      {
        item := item - 1;
      }
    }

    method EditableMoveAfter()
      requires Valid()
      modifies this`tracks, this`selected
      ensures Valid() && Value() == MoveAfter(old(Value()))
    {
      hide MovedTo, AfterPlace, BeforePlace, Flags, CountMarked;
      if nrTracks <= 1 || !unsorted {
        return;
      }
      if selected.Some? {
        PlaceStays(Value());
        var after := FindInsertAfterPoint(selected.value + 1);
        MoveSel(after);
      }
    }

    method EditableMoveBefore()
      requires Valid()
      modifies this`tracks, this`selected
      ensures Valid() && Value() == MoveBefore(old(Value()))
    {
      hide MovedTo, AfterPlace, BeforePlace, Flags, CountMarked;
      if nrTracks <= 1 || !unsorted {
        return;
      }
      if selected.Some? {
        PlaceStays(Value());
        var after := FindInsertBeforePoint(selected.value + 1);
        MoveSel(after);
      }
    }

    /** Marks or unmarks the selected track and selects the next row if there is one. */
    method ToggleMark()
      requires Valid()
      modifies this`tracks, this`nrMarked, this`selected
      ensures Valid()
      ensures old(selected).None? ==> Value() == old(Value())
      ensures old(selected).Some? ==>
                var row := old(selected.value);
                && tracks == old(tracks)[row := Track(old(tracks)[row].info, !old(tracks)[row].marked)]
                && selected == Some(if row + 1 < |tracks| then row + 1 else row)
    {
      if selected.Some? {
        var row := selected.value;
        var t := tracks[row];
        CountReplaced(tracks, row, Track(t.info, !t.marked));
        nrMarked := nrMarked - if t.marked then 1 else 0;
        tracks := tracks[row := Track(t.info, !t.marked)];
        nrMarked := nrMarked + if tracks[row].marked then 1 else 0;
        if row + 1 < |tracks| {
          selected := Some(row + 1);
        }
      }
    }

    /** The loop of marking by a filter, of unmarking and of inverting. */
    method Remark(mark: Track -> bool)
      requires Valid()
      modifies this`tracks, this`nrMarked
      ensures Valid() && tracks == Remarked(old(tracks), mark)
    {
      ghost var ts := tracks;
      for i := 0 to |tracks|
        invariant |tracks| == |ts| && nrMarked == CountMarked(tracks)
        invariant forall j :: 0 <= j < |ts| ==> tracks[j] == if j < i then Track(ts[j].info, mark(ts[j])) else ts[j]
      {
        var t := tracks[i];
        CountReplaced(tracks, i, Track(t.info, mark(t)));
        nrMarked := nrMarked - if t.marked then 1 else 0;
        tracks := tracks[i := Track(t.info, mark(t))];
        nrMarked := nrMarked + if tracks[i].marked then 1 else 0;
      }
      assert tracks == Remarked(ts, mark);
    }
  }
}

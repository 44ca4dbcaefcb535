// The share table and the PPLNS window cut out of it (internal/store/store.go).

module ShareWindow {
  import opened Sums
  import opened Apportionment

  /** A row of the shares table; the id is assigned by the database and never reused. */
  datatype Share = Share(id: nat, address: string, work: nat, hash: string)

  /** Rows in id order, each with a positive id and positive work. */
  ghost predicate Ascending(rows: seq<Share>) {
    && (forall i, j :: 0 <= i < j < |rows| ==> rows[i].id < rows[j].id)
    && (forall i :: 0 <= i < |rows| ==> rows[i].work > 0 && rows[i].id > 0)
  }

  ghost function WorkOf(rows: seq<Share>): nat {
    if rows == [] then 0 else rows[0].work + WorkOf(rows[1..])
  }

  /** n copies of an address: one entry for each unit of work. */
  ghost function Repeat(a: string, n: nat): seq<string>
    ensures |Repeat(a, n)| == n
  {
    seq(n, _ => a)
  }

  /** Every unit of accepted work, newest first, labelled with the address that did it. */
  ghost function Units(rows: seq<Share>): seq<string> {
    if rows == [] then [] else Units(rows[1..]) + Repeat(rows[0].address, rows[0].work)
  }

  ghost function Take(units: seq<string>, n: nat): seq<string> {
    if n <= |units| then units[..n] else units
  }

  /** The rows a cutoff id selects. */
  ghost function UpTo(rows: seq<Share>, cutoff: nat): seq<Share> {
    if rows == [] then [] else (if rows[0].id <= cutoff then [rows[0]] else []) + UpTo(rows[1..], cutoff)
  }

  ghost function WorkAfter(rows: seq<Share>, cutoff: nat): nat {
    if rows == [] then 0 else (if rows[0].id <= cutoff then 0 else rows[0].work) + WorkAfter(rows[1..], cutoff)
  }

  /** The newest `window` units of work among the rows up to the cutoff. */
  ghost function Window(rows: seq<Share>, cutoff: nat, window: nat): multiset<string> {
    multiset(Take(Units(UpTo(rows, cutoff)), window))
  }

  ghost function Tally(units: multiset<string>): map<string, nat> {
    map a | a in units :: units[a]
  }

  lemma {:induction false} UnitsLength(rows: seq<Share>)
    ensures |Units(rows)| == WorkOf(rows)
  {
    if rows != [] {
      UnitsLength(rows[1..]);
    }
  }

  lemma {:induction false} UnitsConcat(older: seq<Share>, newer: seq<Share>)
    ensures Units(older + newer) == Units(newer) + Units(older)
  {
    if older == [] {
      assert older + newer == newer;
    } else {
      UnitsConcat(older[1..], newer);
      assert (older + newer)[1..] == older[1..] + newer;
    }
  }

  lemma {:induction false} UpToConcat(older: seq<Share>, newer: seq<Share>, cutoff: nat)
    ensures UpTo(older + newer, cutoff) == UpTo(older, cutoff) + UpTo(newer, cutoff)
    ensures WorkAfter(older + newer, cutoff) == WorkAfter(older, cutoff) + WorkAfter(newer, cutoff)
  {
    if older == [] {
      assert older + newer == newer;
    } else {
      UpToConcat(older[1..], newer, cutoff);
      assert (older + newer)[1..] == older[1..] + newer;
      var first := if older[0].id <= cutoff then [older[0]] else [];
      assert first + (UpTo(older[1..], cutoff) + UpTo(newer, cutoff))
        == first + UpTo(older[1..], cutoff) + UpTo(newer, cutoff);
    }
  }

  lemma {:induction false} UpToSplit(rows: seq<Share>, cutoff: nat)
    ensures WorkOf(UpTo(rows, cutoff)) + WorkAfter(rows, cutoff) == WorkOf(rows)
  {
    if rows != [] {
      UpToSplit(rows[1..], cutoff);
      assert [] + UpTo(rows[1..], cutoff) == UpTo(rows[1..], cutoff);
      assert ([rows[0]] + UpTo(rows[1..], cutoff))[1..] == UpTo(rows[1..], cutoff);
    }
  }

  /** The selected work is the window, or all the work there is when the pool is young. */
  lemma SelectedWork(rows: seq<Share>, cutoff: nat, window: nat)
    ensures |Window(rows, cutoff, window)| ==
      var available := WorkOf(UpTo(rows, cutoff)); if available < window then available else window
  {
    UnitsLength(UpTo(rows, cutoff));
  }

  /** The part of a share's work that lies in the window, when `newer` units come before it. */
  function Inside(work: nat, newer: nat, window: nat): nat {
    if newer >= window then 0 else if work > window - newer then window - newer else work
  }

  /** What the shares up to the cutoff contribute to an address: each the part of its work inside the window. */
  ghost function Contribution(rows: seq<Share>, cutoff: nat, window: nat, a: string): nat {
    if rows == [] then 0
    else
      var counts := rows[0].id <= cutoff && rows[0].address == a;
      (if counts then Inside(rows[0].work, WorkOf(UpTo(rows[1..], cutoff)), window) else 0)
      + Contribution(rows[1..], cutoff, window, a)
  }

  lemma TakeOlder(units: seq<string>, a: string, n: nat, window: nat)
    ensures Take(units + Repeat(a, n), window) == Take(units, window) + Repeat(a, Inside(n, |units|, window))
  {
  }

  /**
    Share by share: the window credits an address with the part of each of its
    shares that lies among the newest units, so only one share is ever cut.
   */
  lemma {:induction false} WindowByShare(rows: seq<Share>, cutoff: nat, window: nat, a: string)
    ensures Window(rows, cutoff, window)[a] == Contribution(rows, cutoff, window, a)
  {
    if rows != [] {
      var rest, first := rows[1..], rows[0];
      WindowByShare(rest, cutoff, window, a);
      UnitsLength(UpTo(rest, cutoff));
      assert rows == [first] + rest;
      UpToConcat([first], rest, cutoff);
      UnitsConcat(UpTo([first], cutoff), UpTo(rest, cutoff));
      UnitsOfOne(first, cutoff);
      if first.id <= cutoff {
        TakeOlder(Units(UpTo(rest, cutoff)), first.address, first.work, window);
        RepeatCounts(first.address, Inside(first.work, WorkOf(UpTo(rest, cutoff)), window));
      } else {
        assert Units(UpTo(rest, cutoff)) + [] == Units(UpTo(rest, cutoff));
      }
    }
  }

  /** A window is empty only when no share is old enough. */
  lemma WindowNotEmpty(rows: seq<Share>, cutoff: nat, window: nat)
    requires Ascending(rows) && window > 0
    ensures Window(rows, cutoff, window) != multiset{} <==> exists i :: 0 <= i < |rows| && rows[i].id <= cutoff
  {
    SelectedWork(rows, cutoff, window);
    WorkUpTo(rows, cutoff);
  }

  lemma {:induction false} WorkUpTo(rows: seq<Share>, cutoff: nat)
    requires forall i :: 0 <= i < |rows| ==> rows[i].work > 0
    ensures WorkOf(UpTo(rows, cutoff)) > 0 <==> exists i :: 0 <= i < |rows| && rows[i].id <= cutoff
  {
    if rows != [] {
      var rest := rows[1..];
      WorkUpTo(rest, cutoff);
      if rows[0].id > cutoff {
        assert UpTo(rows, cutoff) == UpTo(rest, cutoff);
        assert forall i :: 1 <= i < |rows| ==> rows[i] == rest[i - 1];
      } else {
        assert UpTo(rows, cutoff)[0] == rows[0];
      }
    }
  }

  lemma {:induction false} TallyTotal(units: multiset<string>)
    ensures Total(Tally(units)) == |units|
    ensures forall a :: a in Tally(units) ==> Tally(units)[a] > 0
  {
    if units == multiset{} {
      assert Tally(units).Keys == {};
    } else {
      var a :| a in units;
      var rest := units[a := 0];
      TallyTotal(rest);
      assert units == rest + multiset{}[a := units[a]];
      assert Tally(units).Keys == Tally(rest).Keys + {a};
      SumInsert(Tally(rest).Keys, a, Reader(Tally(units)));
      SumCongruent(Tally(rest).Keys, Reader(Tally(units)), Reader(Tally(rest)));
    }
  }

  // ----- Pruning

  /** Old rows are dropped for as long as the rest still holds the work to retain. */
  ghost function Pruned(rows: seq<Share>, retain: nat): seq<Share> {
    if rows != [] && WorkOf(rows[1..]) >= retain then Pruned(rows[1..], retain) else rows
  }

  /** A prune leaves the shortest newest part of the table that holds the work to retain, or all of it. */
  ghost predicate ShortestRetaining(before: seq<Share>, after: seq<Share>, retain: nat) {
    && |after| <= |before| && after == before[|before| - |after|..]
    && (WorkOf(after) >= retain || after == before) && (after != [] ==> WorkOf(after[1..]) < retain)
  }

  lemma {:induction false} PrunedIsShortest(rows: seq<Share>, retain: nat)
    requires retain > 0
    ensures ShortestRetaining(rows, Pruned(rows, retain), retain)
  {
    if rows != [] && WorkOf(rows[1..]) >= retain {
      var after := Pruned(rows[1..], retain);
      PrunedIsShortest(rows[1..], retain);
      assert rows[1..][|rows| - 1 - |after|..] == rows[|rows| - |after|..];
      assert after == rows[1..] ==> WorkOf(after) >= retain;
    }
  }

  lemma {:induction false} PrunedIsSuffix(rows: seq<Share>, retain: nat)
    ensures |Pruned(rows, retain)| <= |rows|
    ensures Pruned(rows, retain) == rows[|rows| - |Pruned(rows, retain)|..]
    ensures WorkOf(rows) >= retain ==> WorkOf(Pruned(rows, retain)) >= retain
    ensures WorkOf(rows) < retain ==> Pruned(rows, retain) == rows
    ensures Pruned(rows, retain) != [] ==> WorkOf(Pruned(rows, retain)[1..]) < retain
  {
    if rows != [] && WorkOf(rows[1..]) >= retain {
      PrunedIsSuffix(rows[1..], retain);
    }
  }

  lemma {:induction false} NewerAllAfter(rows: seq<Share>, cutoff: nat)
    requires forall i :: 0 <= i < |rows| ==> rows[i].id > cutoff
    ensures UpTo(rows, cutoff) == [] && WorkAfter(rows, cutoff) == WorkOf(rows)
  {
    if rows != [] {
      NewerAllAfter(rows[1..], cutoff);
    }
  }

  /** Pruning removes units from the old end only. */
  lemma PrunedUnitsPrefix(rows: seq<Share>, cutoff: nat, retain: nat)
    ensures Units(UpTo(Pruned(rows, retain), cutoff)) <= Units(UpTo(rows, cutoff))
  {
    PrunedIsSuffix(rows, retain);
    var dropped := rows[..|rows| - |Pruned(rows, retain)|];
    assert rows == dropped + Pruned(rows, retain);
    UpToConcat(dropped, Pruned(rows, retain), cutoff);
    UnitsConcat(UpTo(dropped, cutoff), UpTo(Pruned(rows, retain), cutoff));
  }

  /** Dropping the rows before index i would leave less than the window. */
  ghost predicate Spoils(rows: seq<Share>, i: nat, cutoff: nat, window: nat)
    requires 0 < i <= |rows|
  {
    rows[i - 1].id <= cutoff && WorkOf(UpTo(rows[i..], cutoff)) < window
  }

  /** What can be computed before a prune: no row it would drop is needed by the window of an earlier winner. */
  ghost predicate PruneIsSafe(rows: seq<Share>, cutoff: nat, window: nat, retain: nat) {
    forall i {:trigger rows[i..]} :: 0 < i <= |rows| && WorkOf(rows[i..]) >= retain ==> !Spoils(rows, i, cutoff, window)
  }

  lemma {:induction false} SuffixWork(rows: seq<Share>, i: nat)
    requires i <= |rows|
    ensures WorkOf(rows[i..]) <= WorkOf(rows)
  {
    if i > 0 {
      SuffixWork(rows[1..], i - 1);
      assert rows[1..][i - 1..] == rows[i..];
    }
  }

  lemma PruneIsSafeStep(rows: seq<Share>, cutoff: nat, window: nat, retain: nat)
    requires rows != []
    ensures PruneIsSafe(rows, cutoff, window, retain) <==>
      && PruneIsSafe(rows[1..], cutoff, window, retain)
      && (WorkOf(rows[1..]) >= retain ==> !Spoils(rows, 1, cutoff, window))
  {
    var rest := rows[1..];
    forall i | 0 < i <= |rest|
      ensures rest[i..] == rows[i + 1..] && Spoils(rest, i, cutoff, window) == Spoils(rows, i + 1, cutoff, window)
    {
    }
    if PruneIsSafe(rest, cutoff, window, retain) && (WorkOf(rest) >= retain ==> !Spoils(rows, 1, cutoff, window)) {
      forall i | 0 < i <= |rows| && WorkOf(rows[i..]) >= retain ensures !Spoils(rows, i, cutoff, window) {
        if i > 1 {
          assert rest[i - 1..] == rows[i..];
        }
      }
    }
    if PruneIsSafe(rows, cutoff, window, retain) {
      forall i | 0 < i <= |rest| && WorkOf(rest[i..]) >= retain ensures !Spoils(rest, i, cutoff, window) {
        assert rest[i..] == rows[i + 1..];
      }
    }
  }

  /** The oldest row matters to the window exactly when it is in range and the rest falls short. */
  lemma OldestRowMatters(rows: seq<Share>, cutoff: nat, window: nat)
    requires rows != [] && rows[0].work > 0
    ensures Window(rows[1..], cutoff, window) == Window(rows, cutoff, window) <==> !Spoils(rows, 1, cutoff, window)
    ensures Spoils(rows, 1, cutoff, window) ==> |Window(rows, cutoff, window)| > WorkOf(UpTo(rows[1..], cutoff))
  {
    var rest := rows[1..];
    assert rows == [rows[0]] + rest;
    UpToConcat([rows[0]], rest, cutoff);
    UnitsConcat(UpTo([rows[0]], cutoff), UpTo(rest, cutoff));
    UnitsOfOne(rows[0], cutoff);
    UnitsLength(UpTo(rest, cutoff));
    var all, kept := Units(UpTo(rows, cutoff)), Units(UpTo(rest, cutoff));
    if Spoils(rows, 1, cutoff, window) {
      assert |Window(rest, cutoff, window)| < |Window(rows, cutoff, window)|;
    } else {
      assert Take(all, window) == Take(kept, window);
    }
  }

  lemma NothingPruned(rows: seq<Share>, cutoff: nat, window: nat, retain: nat)
    requires rows == [] || WorkOf(rows[1..]) < retain
    ensures Pruned(rows, retain) == rows && PruneIsSafe(rows, cutoff, window, retain)
  {
    forall i | 0 < i <= |rows| ensures WorkOf(rows[i..]) < retain {
      SuffixWork(rows[1..], i - 1);
      assert rows[1..][i - 1..] == rows[i..];
    }
  }

  /** A prune leaves the window of an earlier winner alone if and only if it is safe. */
  lemma {:induction false} PruneKeepsWindowExactly(rows: seq<Share>, cutoff: nat, window: nat, retain: nat)
    requires Ascending(rows)
    ensures Window(Pruned(rows, retain), cutoff, window) == Window(rows, cutoff, window) <==>
      PruneIsSafe(rows, cutoff, window, retain)
  {
    if rows == [] || WorkOf(rows[1..]) < retain {
      NothingPruned(rows, cutoff, window, retain);
    } else {
      PruneKeepsWindowExactly(rows[1..], cutoff, window, retain);
      PruneIsSafeStep(rows, cutoff, window, retain);
      OldestRowMatters(rows, cutoff, window);
      PrunedUnitsPrefix(rows[1..], cutoff, retain);
      SelectedWork(Pruned(rows[1..], retain), cutoff, window);
      UnitsLength(UpTo(Pruned(rows[1..], retain), cutoff));
      UnitsLength(UpTo(rows[1..], cutoff));
    }
  }

  /** A prune that is not safe: one later share that fills the retention alone evicts the winner. */
  lemma LaterShareEvictsWinner(winner: Share, later: Share, window: nat, retain: nat)
    requires Ascending([winner, later]) && 0 < retain <= later.work && window > 0
    ensures Window([winner, later], winner.id, window) != multiset{}
    ensures Window(Pruned([winner, later], retain), winner.id, window) == multiset{}
    ensures !PruneIsSafe([winner, later], winner.id, window, retain)
  {
    var rows := [winner, later];
    assert rows[0] == winner && rows[1] == later;
    assert rows[1..] == [later] && [later][1..] == [];
    assert Pruned(rows, retain) == Pruned([later], retain) == [later];
    assert UpTo([later], winner.id) == [] + UpTo([], winner.id) == [];
    assert UpTo(rows, winner.id) == [winner] + UpTo([later], winner.id) == [] + [winner];
    WinnerInUnits([], winner, window);
    assert Units([winner]) == Units([] + [winner]);
    PruneKeepsWindowExactly(rows, winner.id, window, retain);
  }

  /** The guarantee a caller can check: the retained work covers the window and everything recorded since the winner. */
  lemma {:induction false} PruneKeepsWindow(rows: seq<Share>, cutoff: nat, window: nat, retain: nat)
    requires Ascending(rows) && WorkAfter(rows, cutoff) + window <= retain
    ensures Window(Pruned(rows, retain), cutoff, window) == Window(rows, cutoff, window)
    ensures WorkAfter(Pruned(rows, retain), cutoff) == WorkAfter(rows, cutoff)
  {
    if rows != [] && WorkOf(rows[1..]) >= retain {
      var rest := rows[1..];
      UpToSplit(rest, cutoff);
      if rows[0].id > cutoff {
        NewerAllAfter(rows, cutoff);
        NewerAllAfter(rest, cutoff);
        assert false;
      }
      PruneKeepsWindow(rest, cutoff, window, retain);
      UnitsLength(UpTo(rest, cutoff));
      UnitsConcat([rows[0]], UpTo(rest, cutoff));
      assert Take(Units(UpTo(rows, cutoff)), window) == Take(Units(UpTo(rest, cutoff)), window);
    }
  }

  // ----- The table over time

  /** What other goroutines do to the table while a winner waits for its allocation. */
  datatype Change = Record(share: Share) | Prune(retain: nat)

  ghost function Changed(rows: seq<Share>, change: Change): seq<Share> {
    match change
    case Record(share) => rows + [share]
    case Prune(retain) => Pruned(rows, retain)
  }

  ghost function Apply(rows: seq<Share>, changes: seq<Change>): seq<Share>
    decreases |changes|
  {
    if changes == [] then rows else Apply(Changed(rows, changes[0]), changes[1..])
  }

  /** Recorded rows have positive work and take ever larger ids, above every id used so far. */
  ghost predicate Fresh(last: nat, changes: seq<Change>)
    decreases |changes|
  {
    changes == [] || match changes[0] {
      case Record(share) => share.id > last && share.work > 0 && Fresh(share.id, changes[1..])
      case Prune(retain) => Fresh(last, changes[1..])
    }
  }

  /** Each prune retains the window plus everything recorded after the winner so far. */
  ghost predicate Retains(since: nat, window: nat, changes: seq<Change>)
    decreases |changes|
  {
    changes == [] || match changes[0] {
      case Record(share) => Retains(since + share.work, window, changes[1..])
      case Prune(retain) => since + window <= retain && Retains(since, window, changes[1..])
    }
  }

  lemma RecordKeepsWindow(rows: seq<Share>, share: Share, cutoff: nat, window: nat)
    requires share.id > cutoff
    ensures Window(rows + [share], cutoff, window) == Window(rows, cutoff, window)
    ensures WorkAfter(rows + [share], cutoff) == WorkAfter(rows, cutoff) + share.work
  {
    UpToConcat(rows, [share], cutoff);
    assert UpTo([share], cutoff) == [];
    assert UpTo(rows + [share], cutoff) == UpTo(rows, cutoff);
  }

  ghost predicate IdsUpTo(rows: seq<Share>, last: nat) {
    forall i :: 0 <= i < |rows| ==> rows[i].id <= last
  }

  lemma PrunedAscending(rows: seq<Share>, last: nat, retain: nat)
    requires Ascending(rows) && IdsUpTo(rows, last)
    ensures Ascending(Pruned(rows, retain)) && IdsUpTo(Pruned(rows, retain), last)
  {
    PrunedIsSuffix(rows, retain);
  }

  lemma RecordedAscending(rows: seq<Share>, last: nat, share: Share)
    requires Ascending(rows) && IdsUpTo(rows, last) && share.id > last && share.work > 0
    ensures Ascending(rows + [share]) && IdsUpTo(rows + [share], share.id)
  {
  }

  function LastAfter(last: nat, change: Change): nat {
    if change.Record? then change.share.id else last
  }

  /** What a change must meet to leave the window alone. */
  ghost predicate Harmless(rows: seq<Share>, last: nat, cutoff: nat, window: nat, changes: seq<Change>) {
    && Ascending(rows) && IdsUpTo(rows, last) && cutoff <= last && Fresh(last, changes)
    && Retains(WorkAfter(rows, cutoff), window, changes)
  }

  lemma HarmlessFrom(next: seq<Share>, last: nat, cutoff: nat, window: nat, since: nat, rest: seq<Change>)
    requires Ascending(next) && IdsUpTo(next, last) && cutoff <= last && WorkAfter(next, cutoff) == since
    requires Fresh(last, rest) && Retains(since, window, rest)
    ensures Harmless(next, last, cutoff, window, rest)
  {
  }

  lemma RecordHarmless(
      rows: seq<Share>, last: nat, cutoff: nat, window: nat, share: Share, since: nat, rest: seq<Change>)
    requires Ascending(rows) && IdsUpTo(rows, last) && cutoff <= last && share.id > last && share.work > 0
    requires since == WorkAfter(rows, cutoff) + share.work && Fresh(share.id, rest) && Retains(since, window, rest)
    ensures Harmless(rows + [share], share.id, cutoff, window, rest)
  {
    var next := rows + [share];
    RecordKeepsWindow(rows, share, cutoff, window);
    RecordedAscending(rows, last, share);
    HarmlessFrom(next, share.id, cutoff, window, since, rest);
  }

  lemma PruneHarmless(rows: seq<Share>, last: nat, cutoff: nat, window: nat, retain: nat, rest: seq<Change>)
    requires Ascending(rows) && IdsUpTo(rows, last) && cutoff <= last && WorkAfter(rows, cutoff) + window <= retain
    requires Fresh(last, rest) && Retains(WorkAfter(rows, cutoff), window, rest)
    ensures Harmless(Pruned(rows, retain), last, cutoff, window, rest)
  {
    PruneKeepsWindow(rows, cutoff, window, retain);
    PrunedAscending(rows, last, retain);
    HarmlessFrom(Pruned(rows, retain), last, cutoff, window, WorkAfter(rows, cutoff), rest);
  }

  /** After one change the remaining ones are as harmless to the window as before. */
  lemma FirstChange(rows: seq<Share>, last: nat, cutoff: nat, window: nat, changes: seq<Change>)
    requires Harmless(rows, last, cutoff, window, changes) && changes != []
    ensures Harmless(Changed(rows, changes[0]), LastAfter(last, changes[0]), cutoff, window, changes[1..])
    ensures Window(Changed(rows, changes[0]), cutoff, window) == Window(rows, cutoff, window)
  {
    match changes[0] {
      case Record(share) =>
        RecordHarmless(rows, last, cutoff, window, share, WorkAfter(rows, cutoff) + share.work, changes[1..]);
        RecordKeepsWindow(rows, share, cutoff, window);
      case Prune(retain) =>
        PruneHarmless(rows, last, cutoff, window, retain, changes[1..]);
        PruneKeepsWindow(rows, cutoff, window, retain);
    }
  }

  lemma {:induction false} WindowStable(rows: seq<Share>, last: nat, cutoff: nat, window: nat, changes: seq<Change>)
    requires Harmless(rows, last, cutoff, window, changes)
    ensures Window(Apply(rows, changes), cutoff, window) == Window(rows, cutoff, window)
    decreases |changes|
  {
    if changes != [] {
      FirstChange(rows, last, cutoff, window, changes);
      WindowStable(Changed(rows, changes[0]), LastAfter(last, changes[0]), cutoff, window, changes[1..]);
    }
  }

  /**
    The frozen window linearises at the winning share: whatever is recorded and
    pruned between recording the winner and allocating its block, the window is
    the one that stood when the winner was recorded.
   */
  lemma WindowFrozenAtWinner(before: seq<Share>, winner: Share, window: nat, changes: seq<Change>)
    requires Ascending(before + [winner]) && Fresh(winner.id, changes)
    requires Retains(0, window, changes)
    ensures Window(Apply(before + [winner], changes), winner.id, window)
      == Window(before + [winner], winner.id, window)
      == multiset(Take(Units(before + [winner]), window))
  {
    var rows := before + [winner];
    forall i | 0 <= i < |rows| ensures rows[i].id <= winner.id {
      if i < |rows| - 1 {
        assert rows[i].id < rows[|rows| - 1].id;
      }
    }
    AllUpTo(rows, winner.id);
    WindowStable(rows, winner.id, winner.id, window, changes);
  }

  lemma {:induction false} AllUpTo(rows: seq<Share>, cutoff: nat)
    requires forall i :: 0 <= i < |rows| ==> rows[i].id <= cutoff
    ensures UpTo(rows, cutoff) == rows && WorkAfter(rows, cutoff) == 0
  {
    if rows != [] {
      AllUpTo(rows[1..], cutoff);
    }
  }

  lemma UnitsInMiddle(older: seq<Share>, middle: seq<Share>, newer: seq<Share>, cutoff: nat)
    ensures Units(UpTo(older + middle + newer, cutoff))
      == Units(UpTo(newer, cutoff)) + (Units(UpTo(middle, cutoff)) + Units(UpTo(older, cutoff)))
  {
    UpToConcat(older + middle, newer, cutoff);
    UpToConcat(older, middle, cutoff);
    UnitsConcat(UpTo(older, cutoff) + UpTo(middle, cutoff), UpTo(newer, cutoff));
    UnitsConcat(UpTo(older, cutoff), UpTo(middle, cutoff));
  }

  lemma UnitsOfOne(share: Share, cutoff: nat)
    ensures Units(UpTo([share], cutoff)) == if share.id <= cutoff then Repeat(share.address, share.work) else []
  {
    if share.id <= cutoff {
      assert UpTo([share], cutoff) == [share];
      assert Units([share]) == Units([]) + Repeat(share.address, share.work);
    }
  }

  /**
    Only work counts: one share replaced by two adjacent shares of the same
    miner and the same total work leaves every window as it was.
   */
  lemma SplitShareSameWindow(
      older: seq<Share>, whole: Share, first: Share, second: Share, newer: seq<Share>, cutoff: nat, window: nat)
    requires first.address == second.address == whole.address
    requires first.work + second.work == whole.work
    requires first.id <= cutoff <==> whole.id <= cutoff
    requires second.id <= cutoff <==> whole.id <= cutoff
    ensures Window(older + [first, second] + newer, cutoff, window) == Window(older + [whole] + newer, cutoff, window)
  {
    UnitsInMiddle(older, [whole], newer, cutoff);
    UnitsInMiddle(older, [first, second], newer, cutoff);
    UnitsOfOne(whole, cutoff);
    UnitsOfOne(first, cutoff);
    UnitsOfOne(second, cutoff);
    UpToConcat([first], [second], cutoff);
    UnitsConcat(UpTo([first], cutoff), UpTo([second], cutoff));
    assert [first] + [second] == [first, second];
    assert Units(UpTo([first, second], cutoff)) == Units(UpTo([whole], cutoff));
  }

  lemma {:induction false} RepeatCounts(a: string, n: nat)
    ensures forall b :: multiset(Repeat(a, n))[b] == if b == a then n else 0
  {
    if n > 0 {
      RepeatCounts(a, n - 1);
      assert Repeat(a, n) == Repeat(a, n - 1) + [a];
    }
  }

  /** The newest share heads the units. */
  lemma UnitsWithWinner(older: seq<Share>, winner: Share)
    ensures Units(older + [winner]) == Repeat(winner.address, winner.work) + Units(older)
  {
    UnitsConcat(older, [winner]);
    assert Units([winner]) == Units([]) + Repeat(winner.address, winner.work) == Repeat(winner.address, winner.work);
  }

  lemma TakeLeading(a: string, n: nat, units: seq<string>, window: nat)
    requires n > 0 && window > 0
    ensures a in multiset(Take(Repeat(a, n) + units, window))
    ensures window >= n ==> multiset(Take(Repeat(a, n) + units, window))[a] >= n
  {
    var taken := Take(Repeat(a, n) + units, window);
    assert taken[0] == a;
    if window >= n {
      assert taken == Repeat(a, n) + taken[n..];
      RepeatCounts(a, n);
    }
  }

  /** So a window of at least its work counts it whole. */
  lemma WinnerInUnits(older: seq<Share>, winner: Share, window: nat)
    requires winner.work > 0 && window > 0
    ensures multiset(Take(Units(older + [winner]), window)) != multiset{}
    ensures window >= winner.work ==> multiset(Take(Units(older + [winner]), window))[winner.address] >= winner.work
  {
    UnitsWithWinner(older, winner);
    TakeLeading(winner.address, winner.work, Units(older), window);
  }
}

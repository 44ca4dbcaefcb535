// The store: methods that read and update the tables the way the SQL
// transactions of internal/store/store.go do, each proved against the
// corresponding function of module Ledger.

module StoreModel {
  import opened Wrappers
  import opened Sums
  import opened Ranking
  import opened Apportionment
  import opened ShareWindow
  import opened Ledger

  const INCOMPLETE := "incomplete accepted share"
  const DUPLICATE := "duplicate share"

  predicate Complete(height: nat, address: string, work: nat, hash: string) {
    height > 0 && address != "" && work > 0 && hash != ""
  }

  ghost predicate Known(rows: seq<Share>, hash: string) {
    exists i :: 0 <= i < |rows| && rows[i].hash == hash
  }

  datatype Allocation = Allocation(address: string, work: nat, amount: nat)

  datatype Account = Account(mature: nat, pending: nat, paid: nat, balance: int)

  // ----- The PPLNS window

  /** Crediting n more units to an address. */
  function Credit(m: map<string, nat>, a: string, n: nat): map<string, nat> {
    m[a := Get(m, a) + n]
  }

  lemma TallyCredit(units: seq<string>, a: string, n: nat)
    requires n > 0
    ensures Credit(Tally(multiset(units)), a, n) == Tally(multiset(units + Repeat(a, n)))
  {
    var all := multiset(units + Repeat(a, n));
    assert all == multiset(units) + multiset(Repeat(a, n));
    RepeatCounts(a, n);
  }

  lemma TakeGrows(units: seq<string>, a: string, n: nat, window: nat)
    requires |units| < window
    ensures Take(units + Repeat(a, n), window)
      == units + Repeat(a, if n > window - |units| then window - |units| else n)
    ensures Take(units, window) == units
  {
  }

  lemma OlderRow(rows: seq<Share>, i: nat, cutoff: nat)
    requires i < |rows|
    ensures Units(UpTo(rows[..i + 1], cutoff)) ==
      (if rows[i].id <= cutoff then Repeat(rows[i].address, rows[i].work) else []) + Units(UpTo(rows[..i], cutoff))
  {
    assert rows[..i + 1] == rows[..i] + [rows[i]];
    UpToConcat(rows[..i], [rows[i]], cutoff);
    UnitsConcat(UpTo(rows[..i], cutoff), UpTo([rows[i]], cutoff));
    UnitsOfOne(rows[i], cutoff);
  }

  /** After the rows from index i on have been read: the units seen so far and what was made of them. */
  ghost predicate Selecting(
      rows: seq<Share>, i: nat, cutoff: nat, window: nat, units: seq<string>, grouped: map<string, nat>, selected: nat)
  {
    && i <= |rows|
    && Units(UpTo(rows, cutoff)) == units + Units(UpTo(rows[..i], cutoff))
    && grouped == Tally(multiset(Take(units, window)))
    && selected == |Take(units, window)|
  }

  function Clipped(work: nat, window: nat, selected: nat): nat
    requires selected <= window
  {
    if work > window - selected then window - selected else work
  }

  lemma SelectRow(
      rows: seq<Share>, i: nat, cutoff: nat, window: nat, units: seq<string>, grouped: map<string, nat>, selected: nat)
    requires i < |rows| && Selecting(rows, i + 1, cutoff, window, units, grouped, selected) && selected < window
    requires rows[i].id <= cutoff && rows[i].work > 0
    ensures var work := Clipped(rows[i].work, window, selected);
      Selecting(rows, i, cutoff, window, units + Repeat(rows[i].address, rows[i].work),
        Credit(grouped, rows[i].address, work), selected + work)
  {
    var all, older := Repeat(rows[i].address, rows[i].work), Units(UpTo(rows[..i], cutoff));
    OlderRow(rows, i, cutoff);
    assert units + (all + older) == units + all + older;
    TakeCredit(units, rows[i].address, rows[i].work, window, grouped, selected);
  }

  lemma TakeCredit(units: seq<string>, a: string, n: nat, window: nat, grouped: map<string, nat>, selected: nat)
    requires n > 0 && selected < window
    requires grouped == Tally(multiset(Take(units, window))) && selected == |Take(units, window)|
    ensures var work := Clipped(n, window, selected);
      && Credit(grouped, a, work) == Tally(multiset(Take(units + Repeat(a, n), window)))
      && selected + work == |Take(units + Repeat(a, n), window)|
  {
    var work := Clipped(n, window, selected);
    assert |units| < window && Take(units, window) == units && selected == |units|;
    TakeGrows(units, a, n, window);
    assert Take(units + Repeat(a, n), window) == units + Repeat(a, work);
    TallyCredit(units, a, work);
  }

  lemma SkipRow(
      rows: seq<Share>, i: nat, cutoff: nat, window: nat, units: seq<string>, grouped: map<string, nat>, selected: nat)
    requires i < |rows| && Selecting(rows, i + 1, cutoff, window, units, grouped, selected) && rows[i].id > cutoff
    ensures Selecting(rows, i, cutoff, window, units, grouped, selected)
  {
    OlderRow(rows, i, cutoff);
    assert [] + Units(UpTo(rows[..i], cutoff)) == Units(UpTo(rows[..i], cutoff));
  }

  lemma SelectDone(
      rows: seq<Share>, i: nat, cutoff: nat, window: nat, units: seq<string>, grouped: map<string, nat>, selected: nat)
    requires Selecting(rows, i, cutoff, window, units, grouped, selected) && (i == 0 || selected >= window)
    ensures grouped == Tally(Window(rows, cutoff, window)) && selected == |Window(rows, cutoff, window)|
  {
    if i == 0 {
      assert Units(UpTo(rows, cutoff)) == units;
    } else {
      assert Take(Units(UpTo(rows, cutoff)), window) == Take(units, window);
    }
  }

  lemma SelectStart(rows: seq<Share>, cutoff: nat, window: nat)
    ensures Selecting(rows, |rows|, cutoff, window, [], map[], 0)
  {
    assert rows[..|rows|] == rows;
    assert [] + Units(UpTo(rows, cutoff)) == Units(UpTo(rows, cutoff));
  }

  /** Reads shares newest first until the window is full, counting only part of the share that crosses its edge. */
  method SelectWindow(rows: seq<Share>, cutoff: nat, window: nat) returns (grouped: map<string, nat>, selected: nat)
    requires Ascending(rows)
    ensures grouped == Tally(Window(rows, cutoff, window))
    ensures selected == |Window(rows, cutoff, window)|
  {
    grouped, selected := map[], 0;
    ghost var units: seq<string> := [];
    var i := |rows|;
    SelectStart(rows, cutoff, window);
    while i > 0 && selected < window
      invariant 0 <= i && Selecting(rows, i, cutoff, window, units, grouped, selected)
    {
      i := i - 1;
      if rows[i].id <= cutoff {
        SelectRow(rows, i, cutoff, window, units, grouped, selected);
        var address, work := rows[i].address, rows[i].work;
        var remaining := window - selected;
        if work > remaining {
          work := remaining;
        }
        grouped := Credit(grouped, address, work);
        selected := selected + work;
        units := units + Repeat(address, rows[i].work);
      } else {
        SkipRow(rows, i, cutoff, window, units, grouped, selected);
      }
    }
    SelectDone(rows, i, cutoff, window, units, grouped, selected);
  }

  // ----- Dividing a reward

  /** The addresses gathered so far, each listed once. */
  ghost predicate ListedOnce(done: set<string>, weighted: seq<string>) {
    Elements(weighted) == done && forall i, j :: 0 <= i < j < |weighted| ==> weighted[i] != weighted[j]
  }

  /** Their quotients and remainders, and the sum of the quotients. */
  ghost predicate Divided(
      done: set<string>, d: nat, s: nat, work: map<string, nat>,
      amount: map<string, nat>, remainder: map<string, nat>, given: int)
    requires s > 0
  {
    && amount.Keys == remainder.Keys == done
    && (forall a :: a in done ==> amount[a] == QuotaKey(d, s, work)(a) && remainder[a] == RemainderKey(d, s, work)(a))
    && given == Sum(done, QuotaKey(d, s, work))
  }

  ghost predicate Gathered(
      done: set<string>, d: nat, s: nat, work: map<string, nat>,
      weighted: seq<string>, amount: map<string, nat>, remainder: map<string, nat>, given: int)
    requires s > 0
  {
    ListedOnce(done, weighted) && Divided(done, d, s, work, amount, remainder, given)
  }

  lemma ListOne(done: set<string>, weighted: seq<string>, a: string)
    requires ListedOnce(done, weighted) && a !in done
    ensures ListedOnce(done + {a}, weighted + [a])
  {
    AppendElement(weighted, a);
  }

  lemma DivideOne(
      done: set<string>, d: nat, s: nat, work: map<string, nat>,
      amount: map<string, nat>, remainder: map<string, nat>, given: int, a: string, q: nat, r: nat)
    requires s > 0 && Divided(done, d, s, work, amount, remainder, given) && a !in done
    requires q == QuotaKey(d, s, work)(a) && r == RemainderKey(d, s, work)(a)
    ensures Divided(done + {a}, d, s, work, amount[a := q], remainder[a := r], given + q)
  {
    SumInsert(done, a, QuotaKey(d, s, work));
  }

  lemma GatherOne(
      done: set<string>, d: nat, s: nat, work: map<string, nat>,
      weighted: seq<string>, amount: map<string, nat>, remainder: map<string, nat>, given: int,
      a: string, q: nat, r: nat)
    requires s > 0 && Gathered(done, d, s, work, weighted, amount, remainder, given) && a !in done
    requires q == QuotaKey(d, s, work)(a) && r == RemainderKey(d, s, work)(a)
    ensures Gathered(done + {a}, d, s, work, weighted + [a], amount[a := q], remainder[a := r], given + q)
  {
    ListOne(done, weighted, a);
    DivideOne(done, d, s, work, amount, remainder, given, a, q, r);
  }

  /** The quotients, read in the arbitrary order of a Go map iteration. */
  method Quotients(distributable: nat, grouped: map<string, nat>, selected: nat)
    returns (weighted: seq<string>, amount: map<string, nat>, remainder: map<string, nat>, given: nat)
    requires selected > 0
    ensures Gathered(grouped.Keys, distributable, selected, grouped, weighted, amount, remainder, given)
  {
    weighted, amount, remainder, given := [], map[], map[], 0;
    var pending := grouped.Keys;
    while pending != {}
      invariant pending <= grouped.Keys
      invariant Gathered(grouped.Keys - pending, distributable, selected, grouped, weighted, amount, remainder, given)
      decreases pending
    {
      var address :| address in pending;
      var quotient := Quota(distributable, selected, grouped[address]);
      var rest := Remainder(distributable, selected, grouped[address]);
      GatherOne(
        grouped.Keys - pending, distributable, selected, grouped, weighted, amount, remainder, given,
        address, quotient, rest);
      assert grouped.Keys - (pending - {address}) == grouped.Keys - pending + {address};
      amount := amount[address := quotient];
      remainder := remainder[address := rest];
      given := given + quotient;
      weighted := weighted + [address];
      pending := pending - {address};
    }
    assert grouped.Keys - pending == grouped.Keys;
  }

  lemma AppendElement(xs: seq<string>, x: string)
    requires x !in Elements(xs)
    ensures Elements(xs + [x]) == Elements(xs) + {x} && x !in xs
  {
    assert x in xs ==> x in Elements(xs);
  }

  /** One extra atom for each of the first `left` addresses. */
  method HandOut(weighted: seq<string>, amount: map<string, nat>, left: nat) returns (final: map<string, nat>)
    requires left < |weighted| && Elements(weighted) == amount.Keys
    requires forall i, j :: 0 <= i < j < |weighted| ==> weighted[i] != weighted[j]
    ensures final == map a | a in amount :: amount[a] + if a in Elements(weighted[..left]) then 1 else 0
  {
    final := amount;
    for i := 0 to left
      invariant final == map a | a in amount :: amount[a] + if a in Elements(weighted[..i]) then 1 else 0
    {
      var address := weighted[i % |weighted|];
      assert address == weighted[i];
      assert address in Elements(weighted);
      ElementsAppend(weighted, i);
      assert address !in Elements(weighted[..i]);
      final := final[address := final[address] + 1];
    }
  }

  /** Divides the distributable atoms by largest remainder and lists the addresses in order. */
  method Divide(distributable: nat, grouped: map<string, nat>, selected: nat)
    returns (order: seq<string>, amounts: map<string, nat>)
    requires selected == Total(grouped) && selected > 0
    ensures amounts == Apportion(distributable, grouped)
    ensures SortedBy(order, Alphabetical()) && Elements(order) == grouped.Keys
  {
    var weighted, amount, remainder, given := Quotients(distributable, grouped, selected);
    LeftoverBound(distributable, grouped);
    DistinctCount(weighted);
    var left := distributable - given;
    weighted := SortSlice(weighted, Reader(remainder));
    SortedDistinct(weighted, Reader(remainder));
    amounts := HandOut(weighted, amount, left);
    LuckyIsTop(distributable, grouped, weighted, remainder, left);
    HandedOut(distributable, grouped, amount, amounts);
    order := SortSlice(weighted, Alphabetical());
  }

  lemma HandedOut(d: nat, work: map<string, nat>, amount: map<string, nat>, final: map<string, nat>)
    requires Total(work) > 0 && amount.Keys == work.Keys
    requires forall a :: a in work ==> amount[a] == QuotaKey(d, Total(work), work)(a)
    requires final == map a | a in amount :: amount[a] + if a in Lucky(d, work) then 1 else 0
    ensures final == Apportion(d, work)
  {
    var exact := Apportion(d, work);
    assert final.Keys == exact.Keys;
    forall a | a in work ensures final[a] == exact[a] {
      HandedOutAt(d, work, a, amount[a], final[a]);
    }
  }

  lemma HandedOutAt(d: nat, work: map<string, nat>, a: string, quotient: nat, final: nat)
    requires Total(work) > 0 && a in work && quotient == QuotaKey(d, Total(work), work)(a)
    requires final == quotient + if a in Lucky(d, work) then 1 else 0
    ensures final == Apportion(d, work)[a]
  {
  }

  lemma LuckyIsTop(d: nat, work: map<string, nat>, weighted: seq<string>, remainder: map<string, nat>, left: nat)
    requires Total(work) > 0 && left == Leftover(d, work) && left <= |weighted|
    requires SortedBy(weighted, Reader(remainder)) && Elements(weighted) == remainder.Keys == work.Keys
    requires forall a :: a in work ==> remainder[a] == RemainderKey(d, Total(work), work)(a)
    ensures Elements(weighted[..left]) == Lucky(d, work)
  {
    SortedTop(weighted, Reader(remainder), left);
    forall a | a in work ensures Reader(remainder)(a) == RemainderKey(d, Total(work), work)(a) {
    }
    TopCongruent(work.Keys, Reader(remainder), RemainderKey(d, Total(work), work), left);
  }

  /** A constant key: the order by address alone. */
  function Alphabetical(): string -> int {
    (a: string) => 0
  }

  // ----- Pruning

  /** The rows a prune leaves: DELETE ... WHERE id < cutoff. */
  function From(rows: seq<Share>, cutoff: nat): seq<Share> {
    if rows == [] then [] else (if rows[0].id < cutoff then [] else [rows[0]]) + From(rows[1..], cutoff)
  }

  lemma {:induction false} FromAll(rows: seq<Share>, cutoff: nat)
    requires forall i :: 0 <= i < |rows| ==> rows[i].id >= cutoff
    ensures From(rows, cutoff) == rows
  {
    if rows != [] {
      FromAll(rows[1..], cutoff);
    }
  }

  /** Deleting below the id at index i keeps exactly the rows from there on. */
  lemma {:induction false} FromIndex(rows: seq<Share>, i: nat)
    requires Ascending(rows) && i < |rows|
    ensures From(rows, rows[i].id) == rows[i..]
  {
    if i == 0 {
      FromAll(rows, rows[0].id);
    } else {
      FromIndex(rows[1..], i - 1);
      assert From(rows, rows[i].id) == [] + From(rows[1..], rows[i].id);
      assert rows[1..][i - 1..] == rows[i..];
    }
  }

  /** The shortest suffix that still holds the work to retain. */
  lemma {:induction false} PrunedAt(rows: seq<Share>, retain: nat, i: nat)
    requires i < |rows| && WorkOf(rows[i..]) >= retain > WorkOf(rows[i + 1..])
    ensures Pruned(rows, retain) == rows[i..]
  {
    if i == 0 {
      assert rows[0..] == rows;
    } else {
      SuffixWork(rows[1..], i - 1);
      assert rows[1..][i - 1..] == rows[i..] && rows[1..][i..] == rows[i + 1..];
      PrunedAt(rows[1..], retain, i - 1);
    }
  }

  lemma NotPruned(rows: seq<Share>, retain: nat)
    requires WorkOf(rows) < retain
    ensures Pruned(rows, retain) == rows
  {
  }

  // ----- Adding up balances

  /** Adds every amount of `more` to m. */
  method AddAmounts(m: map<string, nat>, more: map<string, nat>) returns (sum: map<string, nat>)
    ensures sum.Keys == m.Keys + more.Keys
    ensures forall a :: Get(sum, a) == Get(m, a) + Get(more, a)
  {
    sum := m;
    var pending := more.Keys;
    while pending != {}
      invariant pending <= more.Keys && sum.Keys == m.Keys + (more.Keys - pending)
      invariant forall a :: Get(sum, a) == Get(m, a) + if a in pending then 0 else Get(more, a)
      decreases pending
    {
      var address :| address in pending;
      sum := sum[address := Get(sum, address) + more[address]];
      pending := pending - {address};
    }
  }

  /** The sums so far of the blocks in one status, and the addresses met. */
  ghost predicate Credits(blocks: map<string, Block>, done: set<string>, status: BlockStatus, m: map<string, nat>) {
    && (forall a :: Get(m, a) == Sum(done, CreditTerm(blocks, status, a)))
    && m.Keys <= Addresses(blocks)
  }

  lemma CreditsNext(
      blocks: map<string, Block>, done: set<string>, status: BlockStatus, m: map<string, nat>, id: string,
      next: map<string, nat>)
    requires Credits(blocks, done, status, m) && id in blocks && id !in done
    requires next.Keys <= m.Keys + blocks[id].amounts.Keys
    requires forall a :: Get(next, a) == Get(m, a) + CreditIn(blocks[id], status, a)
    ensures Credits(blocks, done + {id}, status, next)
  {
    forall a ensures Get(next, a) == Sum(done + {id}, CreditTerm(blocks, status, a)) {
      SumInsert(done, id, CreditTerm(blocks, status, a));
    }
    forall a | a in blocks[id].amounts ensures a in Addresses(blocks) {
    }
  }

  ghost predicate Reserves(
      payouts: map<nat, Payout>, done: set<nat>, reserved: map<string, nat>, paid: map<string, nat>)
  {
    && (forall a :: Get(reserved, a) == Sum(done, ReservedTerm(payouts, a)))
    && (forall a :: Get(paid, a) == Sum(done, PaidTerm(payouts, a)))
  }

  lemma ReservesNext(
      payouts: map<nat, Payout>, done: set<nat>, reserved: map<string, nat>, paid: map<string, nat>,
      id: nat, reserved': map<string, nat>, paid': map<string, nat>)
    requires Reserves(payouts, done, reserved, paid) && id in payouts && id !in done
    requires forall a :: Get(reserved', a) == Get(reserved, a) + Get(payouts[id].items, a)
    requires forall a ::
      Get(paid', a) == Get(paid, a) + if payouts[id].status == Prepared then 0 else Get(payouts[id].items, a)
    ensures Reserves(payouts, done + {id}, reserved', paid')
  {
    forall a ensures Get(reserved', a) == Sum(done + {id}, ReservedTerm(payouts, a)) {
      SumInsert(done, id, ReservedTerm(payouts, a));
    }
    forall a ensures Get(paid', a) == Sum(done + {id}, PaidTerm(payouts, a)) {
      SumInsert(done, id, PaidTerm(payouts, a));
    }
  }

  // ----- The store

  class Store {
    var shares: seq<Share>
    var lastShare: nat
    var blocks: map<string, Block>
    var payouts: map<nat, Payout>
    var lastPayout: nat

    /** The tables as one value. */
    ghost function Tables(): Db
      reads this
    {
      Db(shares, lastShare, blocks, payouts, lastPayout)
    }

    ghost predicate Valid()
      reads this
    {
      Ascending(shares) && IdsUpTo(shares, lastShare)
    }

    constructor ()
      ensures Valid() && Tables() == EMPTY_DB
    {
      shares, lastShare, blocks, payouts, lastPayout := [], 0, map[], map[], 0;
    }

    method RecordShare(height: nat, address: string, work: nat, hash: string) returns (r: Result<nat>)
      requires Valid()
      modifies this
      ensures Valid()
      ensures r.Ok? <==> Complete(height, address, work, hash) && !Known(old(shares), hash)
      ensures r.Ok? ==> r.value == lastShare && Tables() == Recorded(old(Tables()), address, work, hash)
      ensures r.Ok? ==> lastShare > old(lastShare) && shares == old(shares) + [Share(lastShare, address, work, hash)]
      ensures r.Failed? ==> Tables() == old(Tables())
      ensures r.Failed? ==> (r.error == DUPLICATE <==> Complete(height, address, work, hash))
    {
      if height == 0 || address == "" || work == 0 || hash == "" {
        return Failed(INCOMPLETE);
      }
      for i := 0 to |shares|
        invariant forall j :: 0 <= j < i ==> shares[j].hash != hash
      {
        if shares[i].hash == hash {
          return Failed(DUPLICATE);
        }
      }
      lastShare := lastShare + 1;
      shares := shares + [Share(lastShare, address, work, hash)];
      r := Ok(lastShare);
    }

    method PruneShares(retain: nat) returns (ok: bool)
      requires Valid()
      modifies this`shares
      ensures Valid()
      ensures ok <==> retain > 0
      ensures shares == if ok then Pruned(old(shares), retain) else old(shares)
    {
      if retain == 0 {
        return false;
      }
      var cutoff := OldestRetained(retain);
      PrunedAscending(shares, lastShare, retain);
      if cutoff != 0 {
        shares := From(shares, cutoff);
      }
      ok := true;
    }

    /** The id of the oldest share to keep, zero when all of them are kept. */
    method OldestRetained(retain: nat) returns (cutoff: nat)
      requires Valid() && retain > 0
      ensures Pruned(shares, retain) == if cutoff == 0 then shares else From(shares, cutoff)
    {
      var total, i := 0, |shares|;
      assert shares[i..] == [];
      while i > 0
        invariant 0 <= i <= |shares| && total == WorkOf(shares[i..]) && total < retain
      {
        i := i - 1;
        assert shares[i..][1..] == shares[i + 1..];
        total := total + shares[i].work;
        if total >= retain {
          PrunedAt(shares, retain, i);
          FromIndex(shares, i);
          return shares[i].id;
        }
      }
      assert shares[0..] == shares;
      NotPruned(shares, retain);
      cutoff := 0;
    }

    /** Freezes one window and divides the reward over it; nothing changes when any check fails. */
    method AllocateBlock(found: Found, window: nat, bps: nat) returns (r: Result<seq<Allocation>>)
      requires Valid()
      modifies this`blocks
      ensures Tables() == Allocated(old(Tables()), found, window, bps)
      ensures r.Ok? <==>
        && found.id != "" && found.height > 0 && found.reward > 0 && window > 0 && bps <= 10_000
        && found.cutoff > 0 && found.id !in old(blocks) && exists i :: 0 <= i < |shares| && shares[i].id <= found.cutoff
      ensures r.Ok? ==> Lists(r.value, blocks[found.id]) && blocks == old(blocks)[found.id := blocks[found.id]]
      ensures r.Ok? ==> Describes(blocks[found.id], found, window)
      ensures r.Ok? ==> PaysOut(blocks[found.id], Window(shares, found.cutoff, window), found.reward, bps)
      ensures r.Failed? ==> Tables() == old(Tables())
    {
      if !ValidFound(found, window, bps) {
        return Failed("invalid found block");
      }
      if found.id in blocks {
        return Failed("block was already allocated");
      }
      WindowNotEmpty(shares, found.cutoff, window);
      var grouped, selected := SelectWindow(shares, found.cutoff, window);
      ghost var units := Window(shares, found.cutoff, window);
      if selected == 0 {
        return Failed("found block has no accepted shares");
      }
      var order, row := FreezeRow(found, window, bps, grouped, selected, units);
      FrozenPaysOut(units, found, window, bps);
      blocks := blocks[found.id := row];
      r := ListAllocations(order, row);
    }

    /** A page of unresolved blocks, oldest first. */
    method PendingBlocks(limit: nat) returns (r: Result<seq<string>>)
      ensures r.Ok? <==> 1 <= limit <= 1000
      ensures r.Ok? ==> IsPendingPage(blocks, r.value, limit)
    {
      if limit < 1 || limit > 1000 {
        return Failed("invalid pending block limit");
      }
      var pending := set id | id in blocks && blocks[id].status == Pending;
      var page := OldestFirst(blocks, pending, limit);
      r := Ok(page);
    }

    /** Applies one observation to a block row, whatever its present status. */
    method SetBlockState(
        id: string, known: bool, canonical: bool, confirmations: nat, tip: nat, failure: string)
      returns (r: Result<BlockStatus>)
      modifies this`blocks
      ensures r.Ok? <==> id in old(blocks)
      ensures r.Ok? ==>
        && blocks == old(blocks)[id := Observed(old(blocks[id]), known, canonical, confirmations, tip, failure)]
        && blocks[id] == old(blocks[id]).(
          confirmations := confirmations, canonical := canonical, status := r.value, lastError := failure)
        && Resolves(old(blocks[id]), known, canonical, tip, r.value)
      ensures r.Failed? ==> blocks == old(blocks)
    {
      if id !in blocks {
        return Failed("no such block");
      }
      var b := blocks[id];
      var status := b.status;
      if canonical && tip >= b.maturity {
        status := Mature;
      } else if canonical {
        status := Pending;
      } else if tip >= b.height + 6 {
        status := Orphan;
      } else if !known {
        status := Pending;
      }
      b := b.(confirmations := confirmations, canonical := canonical, status := status, lastError := failure);
      blocks := blocks[id := b];
      r := Ok(status);
    }

    /** Records that a block could not be observed. A timeout is no evidence of an orphan. */
    method SetBlockError(id: string, failure: string)
      modifies this`blocks
      ensures blocks == BlockFailed(old(blocks), id, failure)
      ensures blocks.Keys == old(blocks).Keys
      ensures forall b :: b in blocks ==> blocks[b].(lastError := "") == old(blocks)[b].(lastError := "")
    {
      if id in blocks && blocks[id].status == Pending {
        blocks := blocks[id := blocks[id].(lastError := Clip(failure))];
      }
    }

    /** Matured, pending, reserved and paid sums by address, from the joined rows in any order. */
    method Balances()
      returns (mature: map<string, nat>, pending: map<string, nat>, reserved: map<string, nat>, paid: map<string, nat>)
      ensures Credits(blocks, blocks.Keys, Mature, mature) && Credits(blocks, blocks.Keys, Pending, pending)
      ensures Reserves(payouts, payouts.Keys, reserved, paid)
    {
      mature, pending := SumCredits();
      reserved, paid := SumPayouts();
    }

    method SumCredits() returns (mature: map<string, nat>, pending: map<string, nat>)
      ensures Credits(blocks, blocks.Keys, Mature, mature) && Credits(blocks, blocks.Keys, Pending, pending)
    {
      mature, pending := map[], map[];
      var todo := blocks.Keys;
      while todo != {}
        invariant todo <= blocks.Keys
        invariant Credits(blocks, blocks.Keys - todo, Mature, mature)
        invariant Credits(blocks, blocks.Keys - todo, Pending, pending)
        decreases todo
      {
        var id :| id in todo;
        ghost var mature0, pending0 := mature, pending;
        if blocks[id].status == Mature {
          mature := AddAmounts(mature, blocks[id].amounts);
        } else if blocks[id].status == Pending {
          pending := AddAmounts(pending, blocks[id].amounts);
        }
        CreditsNext(blocks, blocks.Keys - todo, Mature, mature0, id, mature);
        CreditsNext(blocks, blocks.Keys - todo, Pending, pending0, id, pending);
        assert blocks.Keys - (todo - {id}) == blocks.Keys - todo + {id};
        todo := todo - {id};
      }
      assert blocks.Keys - todo == blocks.Keys;
    }

    method SumPayouts() returns (reserved: map<string, nat>, paid: map<string, nat>)
      ensures Reserves(payouts, payouts.Keys, reserved, paid)
    {
      reserved, paid := map[], map[];
      var todo := payouts.Keys;
      while todo != {}
        invariant todo <= payouts.Keys
        invariant Reserves(payouts, payouts.Keys - todo, reserved, paid)
        decreases todo
      {
        var id :| id in todo;
        ghost var reserved0, paid0 := reserved, paid;
        reserved := AddAmounts(reserved, payouts[id].items);
        if payouts[id].status == Submitted || payouts[id].status == Confirmed {
          paid := AddAmounts(paid, payouts[id].items);
        }
        ReservesNext(payouts, payouts.Keys - todo, reserved0, paid0, id, reserved, paid);
        assert payouts.Keys - (todo - {id}) == payouts.Keys - todo + {id};
        todo := todo - {id};
      }
      assert payouts.Keys - todo == payouts.Keys;
    }

    /** The account of one address as the dashboard shows it. */
    method AccountOf(address: string) returns (account: Account)
      ensures account.mature == Credited(blocks, Mature, address)
      ensures account.pending == Credited(blocks, Pending, address)
      ensures account.paid == Paid(payouts, address)
      ensures account.balance == Balance(Tables(), address)
      ensures Sound(Tables()) ==> account.balance >= 0 && account.paid <= account.mature
    {
      var mature, pending, reserved, paid := Balances();
      var balance := Get(mature, address) - Get(reserved, address);
      account := Account(Get(mature, address), Get(pending, address), Get(paid, address), balance);
      if Sound(Tables()) {
        BalanceOrder(Tables(), address);
      }
    }

    method InsertPayout(row: Payout)
      modifies this`payouts, this`lastPayout
      ensures Tables() == AddPayout(old(Tables()), row)
      ensures lastPayout in payouts && payouts[lastPayout] == row
    {
      lastPayout := lastPayout + 1;
      payouts := payouts[lastPayout := row];
    }

    method NextBatch(threshold: nat, maxOutputs: nat) returns (any: bool, items: map<string, nat>)
      requires threshold > 0
      ensures any <==> Eligible(Tables(), threshold) != {}
      ensures any ==> items == BatchBy(Addresses(blocks), BalanceKey(Tables()), threshold, maxOutputs)
    {
      var mature, pending, reserved, paid := Balances();
      BalanceFromMaps(Tables(), mature, reserved);
      any, items := ChooseBatch(threshold, maxOutputs, mature, reserved, Addresses(blocks), BalanceKey(Tables()));
    }

    /** Reserves the largest eligible balances in full under a new request id. */
    method PreparePayouts(threshold: nat, fee: nat, maxOutputs: nat, requestID: string) returns (r: Result<seq<Batch>>)
      modifies this`payouts, this`lastPayout
      ensures Tables() == WithPayout(old(Tables()), threshold, fee, maxOutputs, requestID)
      ensures r.Ok? && r.value != [] <==> Preparable(old(Tables()), threshold, maxOutputs, requestID)
      ensures r.Failed? <==>
        || threshold == 0 || maxOutputs == 0 || maxOutputs > 100
        || ((exists a :: Balance(old(Tables()), a) >= threshold)
            && exists p :: p in old(payouts) && old(payouts)[p].requestID == requestID)
      ensures r == Ok([]) ==> forall a :: Balance(old(Tables()), a) < threshold
      ensures r.Failed? || r.value == [] ==> Tables() == old(Tables())
      ensures r.Ok? && r.value != [] ==>
        && lastPayout == old(lastPayout) + 1 && lastPayout in payouts
        && payouts == old(payouts)[lastPayout := payouts[lastPayout]]
        && IsNewRow(payouts[lastPayout], requestID, fee)
        && LargestBalances(payouts[lastPayout].items, old(Tables()), threshold, maxOutputs)
        && r.value == [Batch(lastPayout, Request(requestID, fee, payouts[lastPayout].items))]
    {
      if !ValidPolicy(threshold, maxOutputs) {
        return Failed("invalid payout policy");
      }
      forall a ensures a in Eligible(Tables(), threshold) <==> Balance(Tables(), a) >= threshold {
        EligibleByBalance(Tables(), threshold, a);
      }
      var any, items := NextBatch(threshold, maxOutputs);
      if !any {
        assert !Preparable(Tables(), threshold, maxOutputs, requestID);
        return Ok([]);
      }
      var used := UsesRequest(payouts, requestID);
      if used {
        assert !Preparable(Tables(), threshold, maxOutputs, requestID);
        return Failed("request id already used");
      }
      var total := SumAmounts(items);
      BatchIsNewPayout(Tables(), threshold, fee, maxOutputs, requestID, items, total);
      BatchIsLargest(Tables(), threshold, maxOutputs, items);
      InsertPayout(Payout(requestID, total, fee, Prepared, "", "", items));
      r := Ok([Batch(lastPayout, Request(requestID, fee, items))]);
    }

    /** The active payouts with their outputs, lowest id first. */
    method ActivePayouts(limit: nat) returns (r: Result<seq<Batch>>)
      ensures r.Ok? <==> 1 <= limit <= 100
      ensures r.Ok? ==> r.value == FirstActive(Tables(), limit)
      ensures r.Ok? && RowsAddUp(payouts, lastPayout) ==> ListsActive(r.value, payouts, limit)
    {
      if limit < 1 || limit > 100 {
        return Failed("invalid payout limit");
      }
      var ids: seq<nat> := [];
      var all := ActiveUpTo(payouts, lastPayout);
      ActiveUpToMembers(payouts, lastPayout);
      ids := if |all| <= limit then all else all[..limit];
      assert forall i :: 0 <= i < |ids| ==> ids[i] in all;
      r := Ok(Batches(payouts, ids));
      if RowsAddUp(payouts, lastPayout) {
        FirstActiveLists(Tables(), limit);
      }
    }

    method SetPayoutState(id: nat, transaction: string, status: PayoutStatus) returns (ok: bool)
      modifies this`payouts
      ensures ok <==>
        transaction != "" && status != Prepared && id in old(payouts) && old(payouts)[id].status != Confirmed
      ensures payouts == Settled(old(payouts), id, transaction, status)
      ensures payouts == if !ok then old(payouts) else
        old(payouts)[id := old(payouts)[id].(status := status, transaction := transaction, lastError := "")]
    {
      if transaction == "" || status == Prepared {
        return false;
      }
      if !IsActive(payouts, id) {
        return false;
      }
      payouts := payouts[id := payouts[id].(status := status, transaction := transaction, lastError := "")];
      ok := true;
    }

    method PayoutError(id: nat, message: string)
      modifies this`payouts
      ensures payouts == PayoutFailed(old(payouts), id, message)
    {
      if IsActive(payouts, id) {
        payouts := payouts[id := payouts[id].(lastError := Clip(message))];
      }
    }
  }

  /** The block row for a non-empty window, and the addresses in order. */
  method FreezeRow(
      found: Found, window: nat, bps: nat, grouped: map<string, nat>, selected: nat, ghost units: multiset<string>)
    returns (order: seq<string>, row: Block)
    requires bps <= 10_000 && units != multiset{} && grouped == Tally(units) && selected == |units|
    ensures row == Frozen(units, found, window, bps)
    ensures SortedBy(order, Alphabetical()) && Elements(order) == row.amounts.Keys == row.work.Keys
  {
    TallyTotal(units);
    var distributable := Distributable(found.reward, bps);
    DistributableRange(found.reward, bps);
    var poolFee := found.reward - distributable;
    var amounts;
    order, amounts := Divide(distributable, grouped, selected);
    ApportionTotal(distributable, grouped);
    var maturity := if found.maturity == 0 then found.height + 60 else found.maturity;
    row := Block(
      found.height, maturity, found.reward, found.fees, poolFee, window, selected, grouped, amounts,
      1, true, Pending, "");
  }

  // ----- Choosing recipients

  /** The addresses whose balance reaches the threshold, in any order, with those balances. */
  method Available(threshold: nat, mature: map<string, nat>, reserved: map<string, nat>)
    returns (available: seq<string>, amounts: map<string, nat>)
    ensures Elements(available) == amounts.Keys == set a | a in mature && Get(mature, a) - Get(reserved, a) >= threshold
    ensures forall i, j :: 0 <= i < j < |available| ==> available[i] != available[j]
    ensures forall a :: a in amounts ==> amounts[a] == Get(mature, a) - Get(reserved, a)
  {
    available, amounts := [], map[];
    var todo := mature.Keys;
    while todo != {}
      invariant todo <= mature.Keys
      invariant Elements(available) == amounts.Keys
      invariant amounts.Keys ==
        set a | a in mature && a !in todo && Get(mature, a) - Get(reserved, a) >= threshold
      invariant forall i, j :: 0 <= i < j < |available| ==> available[i] != available[j]
      invariant forall a :: a in amounts ==> amounts[a] == Get(mature, a) - Get(reserved, a)
      decreases todo
    {
      var address :| address in todo;
      var amount := mature[address] - Get(reserved, address);
      if amount >= threshold {
        AppendElement(available, address);
        available := available + [address];
        amounts := amounts[address := amount];
      }
      todo := todo - {address};
    }
  }

  /** Sorts by amount and keeps the first maxOutputs. */
  method LargestFirst(maxOutputs: nat, available: seq<string>, amounts: map<string, nat>)
    returns (items: map<string, nat>)
    requires Elements(available) == amounts.Keys
    requires forall i, j :: 0 <= i < j < |available| ==> available[i] != available[j]
    ensures items == map a | a in amounts && a in Top(amounts.Keys, Reader(amounts), maxOutputs) :: amounts[a]
  {
    var sorted := SortSlice(available, Reader(amounts));
    TopOfSorted(sorted, Reader(amounts), maxOutputs);
    if |sorted| > maxOutputs {
      sorted := sorted[..maxOutputs];
    }
    items := ItemsOf(sorted, amounts);
  }

  lemma TopOfSorted(sorted: seq<string>, key: string -> int, n: nat)
    requires SortedBy(sorted, key)
    ensures Elements(if |sorted| > n then sorted[..n] else sorted) == Top(Elements(sorted), key, n)
  {
    SortedDistinct(sorted, key);
    DistinctCount(sorted);
    if |sorted| > n {
      SortedTop(sorted, key, n);
    } else {
      TopSize(Elements(sorted), key, n);
    }
  }

  method ItemsOf(recipients: seq<string>, amounts: map<string, nat>) returns (items: map<string, nat>)
    requires Elements(recipients) <= amounts.Keys
    ensures items == map a | a in amounts && a in Elements(recipients) :: amounts[a]
  {
    items := map[];
    for i := 0 to |recipients|
      invariant items == map a | a in amounts && a in Elements(recipients[..i]) :: amounts[a]
    {
      ElementsAppend(recipients, i);
      assert recipients[i] in Elements(recipients);
      items := items[recipients[i] := amounts[recipients[i]]];
    }
    assert recipients[..|recipients|] == recipients;
  }

  /** The available addresses are the eligible ones. */
  lemma AvailableIsEligible(
      everyone: set<string>, balance: string -> int, threshold: nat,
      mature: map<string, nat>, reserved: map<string, nat>, amounts: map<string, nat>)
    requires threshold > 0 && mature.Keys <= everyone
    requires forall a :: balance(a) == Get(mature, a) - Get(reserved, a)
    requires amounts.Keys == set a | a in mature && Get(mature, a) - Get(reserved, a) >= threshold
    ensures amounts.Keys == EligibleBy(everyone, balance, threshold)
  {
  }

  lemma ItemsAreBatch(
      everyone: set<string>, balance: string -> int, threshold: nat, n: nat, amounts: map<string, nat>,
      items: map<string, nat>)
    requires amounts.Keys == EligibleBy(everyone, balance, threshold)
    requires forall a :: a in amounts ==> amounts[a] == balance(a)
    requires items == map a | a in amounts && a in Top(amounts.Keys, Reader(amounts), n) :: amounts[a]
    ensures items == BatchBy(everyone, balance, threshold, n)
  {
    TopCongruent(amounts.Keys, Reader(amounts), balance, n);
  }

  /** A row that nothing has been done about yet. */
  ghost predicate IsNewRow(p: Payout, requestID: string, fee: nat) {
    p.requestID == requestID && p.fee == fee && p.amount == Total(p.items)
    && p.status == Prepared && p.transaction == "" && p.lastError == ""
  }

  /** Whole balances of at least the threshold, up to the limit, the largest ones and on a tie the smaller address. */
  ghost predicate LargestBalances(items: map<string, nat>, db: Db, threshold: nat, maxOutputs: nat) {
    && 0 < |items| <= maxOutputs
    && (forall a :: a in items ==> items[a] == Balance(db, a) >= threshold)
    && (forall a :: a !in items && Balance(db, a) >= threshold ==> |items| == maxOutputs)
    && (forall a, b :: a in items && b !in items && Balance(db, b) >= threshold ==>
      Balance(db, a) > Balance(db, b) || (Balance(db, a) == Balance(db, b) && Less(a, b)))
  }

  lemma BatchIsLargest(db: Db, threshold: nat, maxOutputs: nat, items: map<string, nat>)
    requires threshold > 0 && maxOutputs > 0 && Eligible(db, threshold) != {}
    requires items == BatchBy(Addresses(db.blocks), BalanceKey(db), threshold, maxOutputs)
    ensures LargestBalances(items, db, threshold, maxOutputs)
  {
    var chosen := Recipients(db, threshold, maxOutputs);
    ItemsOfBatch(db, threshold, maxOutputs, items);
    TopSize(Eligible(db, threshold), BalanceKey(db), maxOutputs);
    var some :| some in chosen;
    forall b | b !in items && Balance(db, b) >= threshold
      ensures |items| == maxOutputs
      ensures forall a :: a in items ==>
        Balance(db, a) > Balance(db, b) || (Balance(db, a) == Balance(db, b) && Less(a, b))
    {
      EligibleByBalance(db, threshold, b);
      LeftOut(db, threshold, maxOutputs, some, b);
      forall a | a in items
        ensures Balance(db, a) > Balance(db, b) || (Balance(db, a) == Balance(db, b) && Less(a, b))
      {
        LeftOut(db, threshold, maxOutputs, a, b);
      }
    }
  }

  lemma ItemsOfBatch(db: Db, threshold: nat, maxOutputs: nat, items: map<string, nat>)
    requires items == BatchBy(Addresses(db.blocks), BalanceKey(db), threshold, maxOutputs)
    ensures items.Keys == Recipients(db, threshold, maxOutputs) && |items| == |Recipients(db, threshold, maxOutputs)|
    ensures forall a :: a in items ==> items[a] == Balance(db, a) >= threshold
  {
    assert items.Keys == Recipients(db, threshold, maxOutputs);
    assert |items| == |items.Keys|;
  }

  lemma LeftOut(db: Db, threshold: nat, maxOutputs: nat, a: string, b: string)
    requires a in Recipients(db, threshold, maxOutputs)
    requires b in Eligible(db, threshold) && b !in Recipients(db, threshold, maxOutputs)
    ensures |Recipients(db, threshold, maxOutputs)| == maxOutputs
    ensures Balance(db, a) > Balance(db, b) || (Balance(db, a) == Balance(db, b) && Less(a, b))
  {
    TopLeavesOut(Eligible(db, threshold), BalanceKey(db), maxOutputs, a, b);
  }

  lemma BatchIsNewPayout(
      db: Db, threshold: nat, fee: nat, maxOutputs: nat, requestID: string, items: map<string, nat>, total: nat)
    requires Preparable(db, threshold, maxOutputs, requestID)
    requires items == BatchBy(Addresses(db.blocks), BalanceKey(db), threshold, maxOutputs) && total == Total(items)
    ensures WithPayout(db, threshold, fee, maxOutputs, requestID)
      == AddPayout(db, Payout(requestID, total, fee, Prepared, "", "", items))
  {
  }

  lemma BalanceFromMaps(db: Db, mature: map<string, nat>, reserved: map<string, nat>)
    requires forall a :: Get(mature, a) == Credited(db.blocks, Mature, a)
    requires forall a :: Get(reserved, a) == Reserved(db.payouts, a)
    ensures forall a :: BalanceKey(db)(a) == Get(mature, a) - Get(reserved, a)
  {
  }

  /** The recipients of a batch and their whole balances, if anyone is eligible. */
  method ChooseBatch(
      threshold: nat, maxOutputs: nat, mature: map<string, nat>, reserved: map<string, nat>,
      ghost everyone: set<string>, ghost balance: string -> int)
    returns (any: bool, items: map<string, nat>)
    requires threshold > 0 && mature.Keys <= everyone
    requires forall a :: balance(a) == Get(mature, a) - Get(reserved, a)
    ensures any <==> EligibleBy(everyone, balance, threshold) != {}
    ensures any ==> items == BatchBy(everyone, balance, threshold, maxOutputs)
  {
    var available, amounts := Available(threshold, mature, reserved);
    AvailableIsEligible(everyone, balance, threshold, mature, reserved, amounts);
    DistinctCount(available);
    if |available| == 0 {
      return false, map[];
    }
    assert available[0] in Elements(available);
    items := LargestFirst(maxOutputs, available, amounts);
    ItemsAreBatch(everyone, balance, threshold, maxOutputs, amounts, items);
    any := true;
  }

  method UsesRequest(payouts: map<nat, Payout>, requestID: string) returns (used: bool)
    ensures used <==> RequestUsed(payouts, requestID)
  {
    var todo := payouts.Keys;
    while todo != {}
      invariant todo <= payouts.Keys
      invariant forall p :: p in payouts && p !in todo ==> payouts[p].requestID != requestID
      decreases todo
    {
      var p :| p in todo;
      if payouts[p].requestID == requestID {
        return true;
      }
      todo := todo - {p};
    }
    used := false;
  }

  method SumAmounts(items: map<string, nat>) returns (total: nat)
    ensures total == Total(items)
  {
    total := 0;
    var todo := items.Keys;
    while todo != {}
      invariant todo <= items.Keys && total == Sum(items.Keys - todo, Reader(items))
      decreases todo
    {
      var a :| a in todo;
      SumInsert(items.Keys - todo, a, Reader(items));
      assert items.Keys - (todo - {a}) == items.Keys - todo + {a};
      total := total + items[a];
      todo := todo - {a};
    }
    assert items.Keys - todo == items.Keys;
  }

  // ----- Listings

  ghost predicate RowOf(allocation: Allocation, b: Block) {
    && allocation.address in b.amounts && allocation.address in b.work
    && allocation.work == b.work[allocation.address] && allocation.amount == b.amounts[allocation.address]
  }

  /** One allocation per address, in address order. */
  ghost predicate Lists(allocations: seq<Allocation>, b: Block) {
    && b.work.Keys == b.amounts.Keys
    && (forall i, j :: 0 <= i < j < |allocations| ==> Less(allocations[i].address, allocations[j].address))
    && (forall i :: 0 <= i < |allocations| ==> RowOf(allocations[i], b))
    && (forall a :: a in b.amounts ==> exists i :: 0 <= i < |allocations| && allocations[i].address == a)
  }

  method ListAllocations(order: seq<string>, b: Block) returns (r: Result<seq<Allocation>>)
    requires SortedBy(order, Alphabetical()) && Elements(order) == b.amounts.Keys == b.work.Keys
    ensures r.Ok? && Lists(r.value, b)
  {
    assert forall i :: 0 <= i < |order| ==> order[i] in Elements(order);
    var allocations: seq<Allocation> := [];
    for i := 0 to |order|
      invariant |allocations| == i
      invariant forall j :: 0 <= j < i ==> allocations[j] == Allocation(order[j], b.work[order[j]], b.amounts[order[j]])
    {
      allocations := allocations + [Allocation(order[i], b.work[order[i]], b.amounts[order[i]])];
    }
    forall i, j | 0 <= i < j < |allocations| ensures Less(allocations[i].address, allocations[j].address) {
      assert Before(Alphabetical(), order[i], order[j]);
    }
    forall a | a in b.amounts ensures exists i :: 0 <= i < |allocations| && allocations[i].address == a {
      assert a in Elements(order);
      var i :| 0 <= i < |order| && order[i] == a;
      assert allocations[i].address == a;
    }
    r := Ok(allocations);
  }

  /** A lowest block among the candidates. */
  method Oldest(blocks: map<string, Block>, candidates: set<string>) returns (id: string)
    requires candidates != {} && candidates <= blocks.Keys
    ensures id in candidates
    ensures forall other :: other in candidates ==> blocks[id].height <= blocks[other].height
  {
    id :| id in candidates;
    var rest := candidates - {id};
    while rest != {}
      invariant id in candidates && rest <= candidates
      invariant forall other :: other in candidates - rest ==> blocks[id].height <= blocks[other].height
      decreases rest
    {
      var other :| other in rest;
      if blocks[other].height < blocks[id].height {
        id := other;
      }
      rest := rest - {other};
    }
  }

  /** `page` lists the lowest pending blocks in order, `rest` holds the others. */
  ghost predicate Listing(blocks: map<string, Block>, page: seq<string>, rest: set<string>) {
    && rest <= PendingIDs(blocks) && |page| + |rest| == |PendingIDs(blocks)|
    && (forall id :: id in PendingIDs(blocks) <==> id in rest || id in page)
    && (forall i :: 0 <= i < |page| ==> page[i] !in rest)
    && (forall i, j :: 0 <= i < j < |page| ==> page[i] != page[j] && blocks[page[i]].height <= blocks[page[j]].height)
    && (forall i, id :: 0 <= i < |page| && id in rest ==> blocks[page[i]].height <= blocks[id].height)
  }

  lemma ListingNext(blocks: map<string, Block>, page: seq<string>, rest: set<string>, id: string)
    requires Listing(blocks, page, rest) && id in rest
    requires forall other :: other in rest ==> blocks[id].height <= blocks[other].height
    ensures Listing(blocks, page + [id], rest - {id})
  {
  }

  lemma ListingIsPage(blocks: map<string, Block>, page: seq<string>, rest: set<string>, limit: nat)
    requires Listing(blocks, page, rest) && |page| <= limit && (rest == {} || |page| == limit)
    ensures IsPendingPage(blocks, page, limit)
  {
    forall i | 0 <= i < |page| ensures IsPending(blocks, page[i]) {
      assert page[i] in PendingIDs(blocks);
    }
  }

  /** Up to `limit` pending blocks in height order. */
  method OldestFirst(blocks: map<string, Block>, pending: set<string>, limit: nat) returns (page: seq<string>)
    requires pending == PendingIDs(blocks)
    ensures IsPendingPage(blocks, page, limit)
  {
    page := [];
    var rest := pending;
    while rest != {} && |page| < limit
      invariant Listing(blocks, page, rest) && |page| <= limit
      decreases rest
    {
      var id := Oldest(blocks, rest);
      ListingNext(blocks, page, rest, id);
      page := page + [id];
      rest := rest - {id};
    }
    ListingIsPage(blocks, page, rest, limit);
  }
}

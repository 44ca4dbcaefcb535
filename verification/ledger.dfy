// The pool database as a value: its tables, what each store operation makes of
// them, and the balances derived from them (internal/store/store.go).

module Ledger {
  import opened Arith
  import opened Sums
  import opened Ranking
  import opened Apportionment
  import opened ShareWindow

  datatype BlockStatus = Pending | Mature | Orphan

  /** A row of blocks together with its rows of allocations, keyed by address. */
  datatype Block = Block(
    height: nat,
    maturity: nat,
    reward: nat,
    fees: nat,
    poolFee: nat,
    window: nat,
    selected: nat,
    work: map<string, nat>,
    amounts: map<string, nat>,
    confirmations: nat,
    canonical: bool,
    status: BlockStatus,
    lastError: string)

  datatype PayoutStatus = Prepared | Submitted | Confirmed

  /** A row of payouts together with its rows of payout_items, keyed by address. */
  datatype Payout = Payout(
    requestID: string,
    amount: nat,
    fee: nat,
    status: PayoutStatus,
    transaction: string,
    lastError: string,
    items: map<string, nat>)
  {
    predicate Active() {
      status != Confirmed
    }
  }

  datatype Db = Db(
    shares: seq<Share>,
    lastShare: nat,
    blocks: map<string, Block>,
    payouts: map<nat, Payout>,
    lastPayout: nat)

  const EMPTY_DB := Db([], 0, map[], map[], 0)

  /** A solved block as it reaches the store; a maturity of zero asks for the default. */
  datatype Found = Found(id: string, height: nat, reward: nat, fees: nat, maturity: nat, cutoff: nat)

  // ----- Shares

  predicate Recordable(rows: seq<Share>, height: nat, address: string, work: nat, hash: string) {
    height > 0 && address != "" && work > 0 && hash != "" && forall i :: 0 <= i < |rows| ==> rows[i].hash != hash
  }

  ghost function Recorded(db: Db, address: string, work: nat, hash: string): Db {
    db.(shares := db.shares + [Share(db.lastShare + 1, address, work, hash)], lastShare := db.lastShare + 1)
  }

  // ----- Block allocation

  predicate ValidFound(found: Found, window: nat, bps: nat) {
    found.id != "" && found.height > 0 && found.cutoff > 0 && window > 0 && bps <= 10_000 && found.reward > 0
  }

  function Distributable(reward: nat, bps: nat): nat
    requires bps <= 10_000
  {
    reward * (10_000 - bps) / 10_000
  }

  ghost predicate Allocatable(db: Db, found: Found, window: nat, bps: nat) {
    && ValidFound(found, window, bps)
    && found.id !in db.blocks
    && Window(db.shares, found.cutoff, window) != multiset{}
  }

  /** The block row that is frozen for a window of units of work. */
  ghost function Frozen(units: multiset<string>, found: Found, window: nat, bps: nat): Block
    requires units != multiset{} && bps <= 10_000
  {
    TallyTotal(units);
    var credit := Distributable(found.reward, bps);
    Block(
      found.height,
      if found.maturity == 0 then found.height + 60 else found.maturity,
      found.reward,
      found.fees,
      found.reward - credit,
      window,
      |units|,
      Tally(units),
      Apportion(credit, Tally(units)),
      1, true, Pending, "")
  }

  ghost function Allocated(db: Db, found: Found, window: nat, bps: nat): Db {
    if Allocatable(db, found, window, bps) then
      db.(blocks := db.blocks[found.id := Frozen(Window(db.shares, found.cutoff, window), found, window, bps)])
    else db
  }

  lemma DistributableRange(reward: nat, bps: nat)
    requires bps <= 10_000
    ensures var d := Distributable(reward, bps);
      d <= reward && 10_000 * d <= reward * (10_000 - bps) < 10_000 * d + 10_000
    ensures reward * (10_000 - bps) == reward * 10_000 - reward * bps
  {
    MulSub(10_000, bps, reward);
  }

  /** A frozen block's amounts and pool fee make up its whole reward. */
  lemma FrozenBalances(units: multiset<string>, found: Found, window: nat, bps: nat)
    requires units != multiset{} && bps <= 10_000
    ensures var b := Frozen(units, found, window, bps);
      b.poolFee + Total(b.amounts) == b.reward == found.reward && b.selected == Total(b.work)
  {
    TallyTotal(units);
    ApportionTotal(Distributable(found.reward, bps), Tally(units));
  }

  /** What the pool keeps of a reward: its fee in basis points, rounded up to a whole atom. */
  ghost predicate IsPoolFee(fee: nat, reward: nat, bps: nat) {
    reward * bps <= 10_000 * fee < reward * bps + 10_000
  }

  /** What a miner gets for part of the selected work: less than two atoms below the exact part, less than one above. */
  ghost predicate IsFair(amount: nat, work: nat, selected: nat, reward: nat, bps: nat)
    requires bps <= 10_000
  {
    var exact := reward * (10_000 - bps) * work;
    exact - 20_000 * selected < 10_000 * (amount * selected) < exact + 10_000 * selected
  }

  /** The row divides the reward over these units of work: the pool's fee to the pool, the rest by work. */
  ghost predicate PaysOut(b: Block, units: multiset<string>, reward: nat, bps: nat)
    requires bps <= 10_000
  {
    && b.poolFee + Total(b.amounts) == b.reward == reward && IsPoolFee(b.poolFee, reward, bps)
    && b.selected == |units|
    && (forall a :: a in b.amounts <==> a in units) && (forall a :: a in b.work <==> a in units)
    && (forall a :: a in units ==> b.work[a] == units[a] && IsFair(b.amounts[a], units[a], |units|, reward, bps))
  }

  /** The row says what was found, and waits for 60 blocks unless told otherwise. */
  ghost predicate Describes(b: Block, found: Found, window: nat) {
    && b.height == found.height && b.reward == found.reward && b.fees == found.fees && b.window == window
    && b.maturity == (if found.maturity == 0 then found.height + 60 else found.maturity)
    && b.status == Pending && b.canonical && b.confirmations == 1 && b.lastError == ""
  }

  lemma PoolFeeRoundsUp(units: multiset<string>, found: Found, window: nat, bps: nat)
    requires units != multiset{} && bps <= 10_000
    ensures IsPoolFee(Frozen(units, found, window, bps).poolFee, found.reward, bps)
  {
    DistributableRange(found.reward, bps);
  }

  /** Two roundings in a row: of the distributable part, then of one address's part of it. */
  lemma TwoRoundings(amount: int, s: int, w: int, d: int, part: int)
    requires 0 <= w <= s && s > 0 && 10_000 * d <= part < 10_000 * d + 10_000 && -s < amount * s - d * w < s
    ensures part * w - 20_000 * s < 10_000 * (amount * s) < part * w + 10_000 * s
  {
    MulMonotone(10_000 * d, part, w);
    MulMonotone(part, 10_000 * d + 9_999, w);
    MulAdd(10_000 * d, 9_999, w);
    assert (10_000 * d) * w == 10_000 * (d * w);
  }

  lemma FrozenIsFair(units: multiset<string>, found: Found, window: nat, bps: nat, a: string)
    requires a in units && bps <= 10_000
    ensures var b := Frozen(units, found, window, bps);
      a in b.amounts && IsFair(b.amounts[a], units[a], |units|, found.reward, bps)
  {
    var d := Distributable(found.reward, bps);
    TallyTotal(units);
    DistributableRange(found.reward, bps);
    ApportionQuota(d, Tally(units), a);
    TwoRoundings(Apportion(d, Tally(units))[a], |units|, units[a], d, found.reward * (10_000 - bps));
  }

  /** So a frozen row pays out the whole reward of the block it describes. */
  lemma FrozenPaysOut(units: multiset<string>, found: Found, window: nat, bps: nat)
    requires units != multiset{} && bps <= 10_000
    ensures Describes(Frozen(units, found, window, bps), found, window)
    ensures PaysOut(Frozen(units, found, window, bps), units, found.reward, bps)
  {
    var b := Frozen(units, found, window, bps);
    FrozenBalances(units, found, window, bps);
    PoolFeeRoundsUp(units, found, window, bps);
    forall a | a in units ensures IsFair(b.amounts[a], units[a], |units|, found.reward, bps) {
      FrozenIsFair(units, found, window, bps, a);
    }
  }

  // ----- Block states

  predicate IsPending(blocks: map<string, Block>, id: string) {
    id in blocks && blocks[id].status == Pending
  }

  function NextStatus(b: Block, known: bool, canonical: bool, tip: nat): BlockStatus {
    if canonical && tip >= b.maturity then Mature
    else if canonical then Pending
    else if tip >= b.height + 6 then Orphan
    else if !known then Pending
    else b.status
  }

  /** What one observation makes of a status: only an answer from the chain matures or orphans a block. */
  ghost predicate Resolves(b: Block, known: bool, canonical: bool, tip: nat, after: BlockStatus) {
    && (canonical ==> if tip >= b.maturity then after == Mature else after == Pending)
    && (!canonical && tip >= b.height + 6 ==> after == Orphan)
    && (!canonical && tip < b.height + 6 ==> if known then after == b.status else after == Pending)
  }

  function Observed(b: Block, known: bool, canonical: bool, confirmations: nat, tip: nat, failure: string): Block {
    b.(confirmations := confirmations, canonical := canonical,
       status := NextStatus(b, known, canonical, tip), lastError := failure)
  }

  function Clip(message: string): (text: string)
    ensures text <= message && |text| <= 1000 && (text == message || |text| == 1000)
  {
    if |message| > 1000 then message[..1000] else message
  }

  function BlockFailed(blocks: map<string, Block>, id: string, failure: string): map<string, Block> {
    if IsPending(blocks, id) then blocks[id := blocks[id].(lastError := Clip(failure))] else blocks
  }

  ghost function PendingIDs(blocks: map<string, Block>): set<string> {
    set id | id in blocks && blocks[id].status == Pending
  }

  /** One page of pending blocks, oldest height first; ties may come in any order. */
  ghost predicate IsPendingPage(blocks: map<string, Block>, page: seq<string>, limit: nat) {
    && (forall i :: 0 <= i < |page| ==> IsPending(blocks, page[i]))
    && (forall i, j :: 0 <= i < j < |page| ==> page[i] != page[j] && blocks[page[i]].height <= blocks[page[j]].height)
    && |page| == (if |PendingIDs(blocks)| < limit then |PendingIDs(blocks)| else limit)
    && (forall i, id :: 0 <= i < |page| && id in PendingIDs(blocks) && id !in page ==>
      blocks[page[i]].height <= blocks[id].height)
  }

  // ----- Balances

  ghost function CreditTerm(blocks: map<string, Block>, status: BlockStatus, a: string): string -> int {
    (id: string) => if id in blocks && blocks[id].status == status then Get(blocks[id].amounts, a) else 0
  }

  /** What the blocks in one status credit to an address. */
  ghost function Credited(blocks: map<string, Block>, status: BlockStatus, a: string): int {
    Sum(blocks.Keys, CreditTerm(blocks, status, a))
  }

  ghost function ReservedTerm(payouts: map<nat, Payout>, a: string): nat -> int {
    (p: nat) => if p in payouts then Get(payouts[p].items, a) else 0
  }

  ghost function PaidTerm(payouts: map<nat, Payout>, a: string): nat -> int {
    (p: nat) => if p in payouts && payouts[p].status != Prepared then Get(payouts[p].items, a) else 0
  }

  ghost function Reserved(payouts: map<nat, Payout>, a: string): int {
    Sum(payouts.Keys, ReservedTerm(payouts, a))
  }

  ghost function Paid(payouts: map<nat, Payout>, a: string): int {
    Sum(payouts.Keys, PaidTerm(payouts, a))
  }

  ghost function Balance(db: Db, a: string): int {
    Credited(db.blocks, Mature, a) - Reserved(db.payouts, a)
  }

  ghost function Addresses(blocks: map<string, Block>): set<string> {
    set id, a | id in blocks && a in blocks[id].amounts :: a
  }

  // ----- Payouts

  predicate ValidPolicy(threshold: nat, maxOutputs: nat) {
    threshold > 0 && 1 <= maxOutputs <= 100
  }

  ghost function BalanceKey(db: Db): string -> int {
    (a: string) => Balance(db, a)
  }

  ghost function EligibleBy(everyone: set<string>, balance: string -> int, threshold: nat): set<string> {
    set a | a in everyone && balance(a) >= threshold
  }

  /** A batch: the n largest eligible balances, each in full. */
  ghost function BatchBy(everyone: set<string>, balance: string -> int, threshold: nat, n: nat): map<string, nat> {
    map a | a in Top(EligibleBy(everyone, balance, threshold), balance, n) :: balance(a)
  }

  ghost function Eligible(db: Db, threshold: nat): set<string> {
    EligibleBy(Addresses(db.blocks), BalanceKey(db), threshold)
  }

  /** The recipients of the next batch: the largest eligible balances. */
  ghost function Recipients(db: Db, threshold: nat, maxOutputs: nat): set<string> {
    Top(Eligible(db, threshold), BalanceKey(db), maxOutputs)
  }

  ghost function NewPayout(db: Db, threshold: nat, fee: nat, maxOutputs: nat, requestID: string): Payout {
    var items := BatchBy(Addresses(db.blocks), BalanceKey(db), threshold, maxOutputs);
    NonNegativeTotal(items);
    Payout(requestID, Total(items), fee, Prepared, "", "", items)
  }

  ghost predicate RequestUsed(payouts: map<nat, Payout>, requestID: string) {
    exists p :: p in payouts && payouts[p].requestID == requestID
  }

  ghost predicate Preparable(db: Db, threshold: nat, maxOutputs: nat, requestID: string) {
    ValidPolicy(threshold, maxOutputs) && Eligible(db, threshold) != {} && !RequestUsed(db.payouts, requestID)
  }

  ghost function AddPayout(db: Db, p: Payout): Db {
    db.(payouts := db.payouts[db.lastPayout + 1 := p], lastPayout := db.lastPayout + 1)
  }

  ghost function WithPayout(db: Db, threshold: nat, fee: nat, maxOutputs: nat, requestID: string): Db {
    if Preparable(db, threshold, maxOutputs, requestID) then
      AddPayout(db, NewPayout(db, threshold, fee, maxOutputs, requestID))
    else db
  }

  predicate IsActive(payouts: map<nat, Payout>, id: nat) {
    id in payouts && payouts[id].Active()
  }

  ghost function ActiveIDs(payouts: map<nat, Payout>): set<nat> {
    set p | p in payouts && payouts[p].Active()
  }

  predicate Settleable(payouts: map<nat, Payout>, id: nat, transaction: string, status: PayoutStatus) {
    transaction != "" && status != Prepared && IsActive(payouts, id)
  }

  function Settled(payouts: map<nat, Payout>, id: nat, transaction: string, status: PayoutStatus): map<nat, Payout> {
    if Settleable(payouts, id, transaction, status) then
      payouts[id := payouts[id].(status := status, transaction := transaction, lastError := "")]
    else payouts
  }

  function PayoutFailed(payouts: map<nat, Payout>, id: nat, message: string): map<nat, Payout> {
    if IsActive(payouts, id) then payouts[id := payouts[id].(lastError := Clip(message))] else payouts
  }

  // ----- Requests to the node

  /** What the node is asked to pay; the order of the outputs is not significant. */
  datatype Request = Request(requestID: string, fee: nat, outputs: map<string, nat>)

  /** A payout row as the controller copied it out of the store. */
  datatype Batch = Batch(id: nat, request: Request)

  function RequestOf(p: Payout): Request {
    Request(p.requestID, p.fee, p.items)
  }

  /** Active rows in id order, with their own contents, and no active row before the last is left out. */
  ghost predicate ListsActive(batches: seq<Batch>, payouts: map<nat, Payout>, limit: nat) {
    && |batches| == (if |ActiveIDs(payouts)| < limit then |ActiveIDs(payouts)| else limit)
    && (forall i :: 0 <= i < |batches| ==> Carries(batches[i], payouts))
    && (forall i, j :: 0 <= i < j < |batches| ==> batches[i].id < batches[j].id)
    && (forall i, p :: 0 <= i < |batches| && p in ActiveIDs(payouts) && p < batches[i].id ==>
      exists j :: 0 <= j < i && batches[j].id == p)
  }

  /** A batch to be paid: an active row, under its request id, with its fee and its items. */
  ghost predicate Carries(batch: Batch, payouts: map<nat, Payout>) {
    && batch.id in payouts && payouts[batch.id].status != Confirmed
    && batch.request.requestID == payouts[batch.id].requestID
    && batch.request.fee == payouts[batch.id].fee && batch.request.outputs == payouts[batch.id].items
  }

  /** Ids of active payouts up to n, in id order. */
  function ActiveUpTo(payouts: map<nat, Payout>, n: nat): seq<nat> {
    if n == 0 then [] else ActiveUpTo(payouts, n - 1) + if IsActive(payouts, n) then [n] else []
  }

  function Batches(payouts: map<nat, Payout>, ids: seq<nat>): seq<Batch>
    requires forall i :: 0 <= i < |ids| ==> ids[i] in payouts
  {
    seq(|ids|, i requires 0 <= i < |ids| => Batch(ids[i], RequestOf(payouts[ids[i]])))
  }

  lemma {:induction false} ActiveUpToMembers(payouts: map<nat, Payout>, n: nat)
    ensures forall p :: p in ActiveUpTo(payouts, n) <==> (1 <= p <= n && IsActive(payouts, p))
  {
    if n > 0 {
      ActiveUpToMembers(payouts, n - 1);
    }
  }

  ghost predicate Rising(ids: seq<nat>) {
    forall i, j :: 0 <= i < j < |ids| ==> ids[i] < ids[j]
  }

  lemma {:induction false} ActiveUpToSorted(payouts: map<nat, Payout>, n: nat)
    ensures Rising(ActiveUpTo(payouts, n))
  {
    if n > 0 {
      var before := ActiveUpTo(payouts, n - 1);
      ActiveUpToSorted(payouts, n - 1);
      ActiveUpToMembers(payouts, n - 1);
      forall i | 0 <= i < |before| ensures before[i] < n {
        assert before[i] in before;
      }
    }
  }

  lemma {:induction false} CountSorted(ids: seq<nat>, members: set<nat>)
    requires Rising(ids)
    requires forall p :: p in ids <==> p in members
    ensures |ids| == |members|
  {
    if ids == [] {
      assert members == {};
    } else {
      assert ids == [ids[0]] + ids[1..] && ids[0] in ids;
      CountSorted(ids[1..], members - {ids[0]});
    }
  }

  /** The active payouts with the lowest ids, at most `limit` of them. */
  ghost function FirstActive(db: Db, limit: nat): seq<Batch> {
    ActiveUpToMembers(db.payouts, db.lastPayout);
    var ids := ActiveUpTo(db.payouts, db.lastPayout);
    var first := if |ids| <= limit then ids else ids[..limit];
    assert forall i :: 0 <= i < |first| ==> first[i] in ids;
    Batches(db.payouts, first)
  }

  // ----- What the tables always satisfy

  ghost predicate BlockBalances(b: Block) {
    b.poolFee + Total(b.amounts) == b.reward
  }

  ghost predicate BlocksBalance(blocks: map<string, Block>) {
    forall id :: id in blocks ==> BlockBalances(blocks[id])
  }

  /** Rows have ids up to the last one used, and amounts that are the sum of their items. */
  ghost predicate RowsAddUp(payouts: map<nat, Payout>, last: nat) {
    forall p :: p in payouts ==> 1 <= p <= last && payouts[p].amount == Total(payouts[p].items)
  }

  ghost predicate RequestsUnique(payouts: map<nat, Payout>) {
    forall p, q :: p in payouts && q in payouts && payouts[p].requestID == payouts[q].requestID ==> p == q
  }

  /** No address has more reserved than has matured. */
  ghost predicate Covered(blocks: map<string, Block>, payouts: map<nat, Payout>) {
    forall a :: Reserved(payouts, a) <= Credited(blocks, Mature, a)
  }

  ghost predicate Sound(db: Db) {
    && Ascending(db.shares) && IdsUpTo(db.shares, db.lastShare)
    && BlocksBalance(db.blocks) && RowsAddUp(db.payouts, db.lastPayout) && RequestsUnique(db.payouts)
    && Covered(db.blocks, db.payouts)
  }

  lemma NonNegativeTotal(m: map<string, nat>)
    ensures Total(m) >= 0
  {
    SumMonotone(m.Keys, (a: string) => 0, Reader(m));
    SumConstant(m.Keys, 0, (a: string) => 0);
  }

  ghost function CreditIn(b: Block, status: BlockStatus, a: string): nat {
    if b.status == status then Get(b.amounts, a) else 0
  }

  lemma BlockAdded(blocks: map<string, Block>, id: string, b: Block, status: BlockStatus, a: string)
    requires id !in blocks
    ensures Credited(blocks[id := b], status, a) == Credited(blocks, status, a) + CreditIn(b, status, a)
  {
    var f := CreditTerm(blocks[id := b], status, a);
    assert blocks[id := b].Keys == blocks.Keys + {id};
    SumInsert(blocks.Keys, id, f);
    SumCongruent(blocks.Keys, f, CreditTerm(blocks, status, a));
  }

  lemma BlockReplaced(blocks: map<string, Block>, id: string, b: Block, status: BlockStatus, a: string)
    requires id in blocks
    ensures Credited(blocks[id := b], status, a)
      == Credited(blocks, status, a) - CreditIn(blocks[id], status, a) + CreditIn(b, status, a)
  {
    var f, g := CreditTerm(blocks[id := b], status, a), CreditTerm(blocks, status, a);
    assert blocks[id := b].Keys == blocks.Keys;
    SumRemove(blocks.Keys, id, f);
    SumRemove(blocks.Keys, id, g);
    SumCongruent(blocks.Keys - {id}, f, g);
  }

  lemma PayoutAdded(payouts: map<nat, Payout>, id: nat, p: Payout, a: string)
    requires id !in payouts
    ensures Reserved(payouts[id := p], a) == Reserved(payouts, a) + Get(p.items, a)
  {
    var f := ReservedTerm(payouts[id := p], a);
    assert payouts[id := p].Keys == payouts.Keys + {id};
    SumInsert(payouts.Keys, id, f);
    SumCongruent(payouts.Keys, f, ReservedTerm(payouts, a));
  }

  lemma PayoutReplaced(payouts: map<nat, Payout>, id: nat, p: Payout, a: string)
    requires id in payouts && p.items == payouts[id].items
    ensures Reserved(payouts[id := p], a) == Reserved(payouts, a)
  {
    assert payouts[id := p].Keys == payouts.Keys;
    SumCongruent(payouts.Keys, ReservedTerm(payouts[id := p], a), ReservedTerm(payouts, a));
  }

  lemma NoCredit(blocks: map<string, Block>, a: string)
    requires a !in Addresses(blocks)
    ensures Credited(blocks, Mature, a) == 0
  {
    var none := (id: string) => 0;
    forall id | id in blocks.Keys ensures CreditTerm(blocks, Mature, a)(id) == 0 {
      assert a in blocks[id].amounts ==> a in Addresses(blocks);
    }
    SumCongruent(blocks.Keys, CreditTerm(blocks, Mature, a), none);
    SumConstant(blocks.Keys, 0, none);
  }

  lemma NonNegativeReserved(payouts: map<nat, Payout>, a: string)
    ensures Reserved(payouts, a) >= 0
  {
    var none := (p: nat) => 0;
    SumMonotone(payouts.Keys, none, ReservedTerm(payouts, a));
    SumConstant(payouts.Keys, 0, none);
  }

  /** An address is eligible exactly when its balance reaches the threshold. */
  lemma EligibleByBalance(db: Db, threshold: nat, a: string)
    requires threshold > 0
    ensures a in Eligible(db, threshold) <==> Balance(db, a) >= threshold
  {
    NonNegativeReserved(db.payouts, a);
    if a !in Addresses(db.blocks) {
      NoCredit(db.blocks, a);
    }
  }

  /** Per address, what is paid is reserved and what is reserved has matured, so no balance is negative. */
  lemma BalanceOrder(db: Db, a: string)
    requires Sound(db)
    ensures 0 <= Paid(db.payouts, a) <= Reserved(db.payouts, a) <= Credited(db.blocks, Mature, a)
    ensures Balance(db, a) >= 0
    ensures Credited(db.blocks, Pending, a) >= 0
  {
    var zero := (p: nat) => 0;
    SumMonotone(db.payouts.Keys, zero, PaidTerm(db.payouts, a));
    SumConstant(db.payouts.Keys, 0, zero);
    SumMonotone(db.payouts.Keys, PaidTerm(db.payouts, a), ReservedTerm(db.payouts, a));
    var none := (id: string) => 0;
    SumMonotone(db.blocks.Keys, none, CreditTerm(db.blocks, Pending, a));
    SumConstant(db.blocks.Keys, 0, none);
  }

  lemma ListedAreFirst(ids: seq<nat>, listed: seq<nat>, i: nat, p: nat)
    requires Rising(ids)
    requires listed <= ids && i < |listed| && p in ids && p < listed[i]
    ensures exists j :: 0 <= j < i && listed[j] == p
  {
    var j :| 0 <= j < |ids| && ids[j] == p;
    assert j < i && listed[j] == p;
  }

  lemma BatchesList(ids: seq<nat>, first: seq<nat>, payouts: map<nat, Payout>, limit: nat)
    requires Rising(ids)
    requires forall p :: p in ids <==> p in ActiveIDs(payouts)
    requires first == if |ids| <= limit then ids else ids[..limit]
    requires forall i :: 0 <= i < |first| ==> first[i] in ActiveIDs(payouts)
    ensures ListsActive(Batches(payouts, first), payouts, limit)
  {
    var batches := Batches(payouts, first);
    CountSorted(ids, ActiveIDs(payouts));
    forall i, p | 0 <= i < |batches| && p in ActiveIDs(payouts) && p < batches[i].id
      ensures exists j :: 0 <= j < i && batches[j].id == p
    {
      ListedAreFirst(ids, first, i, p);
      var j :| 0 <= j < i && first[j] == p;
      assert batches[j].id == p;
    }
  }

  lemma FirstActiveLists(db: Db, limit: nat)
    requires RowsAddUp(db.payouts, db.lastPayout)
    ensures ListsActive(FirstActive(db, limit), db.payouts, limit)
  {
    var ids := ActiveUpTo(db.payouts, db.lastPayout);
    var first := if |ids| <= limit then ids else ids[..limit];
    ActiveUpToMembers(db.payouts, db.lastPayout);
    ActiveUpToSorted(db.payouts, db.lastPayout);
    assert forall i :: 0 <= i < |first| ==> first[i] in ids;
    forall p ensures p in ids <==> p in ActiveIDs(db.payouts) {
      assert p in ids <==> 1 <= p <= db.lastPayout && IsActive(db.payouts, p);
    }
    BatchesList(ids, first, db.payouts, limit);
  }

  // ----- Conservation

  ghost function RewardTerm(blocks: map<string, Block>): string -> int {
    (id: string) => if id in blocks && blocks[id].status != Orphan then blocks[id].reward else 0
  }

  ghost function PoolFeeTerm(blocks: map<string, Block>): string -> int {
    (id: string) => if id in blocks && blocks[id].status != Orphan then blocks[id].poolFee else 0
  }

  /** What a block that is not an orphan credits, by block and by address. */
  ghost function LiveCredit(blocks: map<string, Block>, id: string, a: string): nat {
    if id in blocks && blocks[id].status != Orphan then Get(blocks[id].amounts, a) else 0
  }

  ghost function CreditsOfBlock(blocks: map<string, Block>): string -> string -> int {
    (id: string) => (a: string) => LiveCredit(blocks, id, a)
  }

  ghost function CreditsOfAddress(blocks: map<string, Block>): string -> string -> int {
    (a: string) => (id: string) => LiveCredit(blocks, id, a)
  }

  ghost function AccountTerm(db: Db): string -> int {
    (a: string) => Credited(db.blocks, Pending, a) + Reserved(db.payouts, a) + Balance(db, a)
  }

  /** Pending and mature credit of one address, summed over the blocks. */
  lemma CreditByBlock(db: Db, a: string)
    ensures AccountTerm(db)(a) == Sum(db.blocks.Keys, CreditsOfAddress(db.blocks)(a))
  {
    var pending, mature := CreditTerm(db.blocks, Pending, a), CreditTerm(db.blocks, Mature, a);
    SumAdd(db.blocks.Keys, CreditsOfAddress(db.blocks)(a), pending, mature);
  }

  /** The reward of one block, summed over the addresses. */
  lemma RewardByAddress(db: Db, everyone: set<string>, id: string)
    requires Sound(db) && Addresses(db.blocks) <= everyone && id in db.blocks
    ensures RewardTerm(db.blocks)(id) == PoolFeeTerm(db.blocks)(id) + Sum(everyone, CreditsOfBlock(db.blocks)(id))
  {
    var b, term := db.blocks[id], CreditsOfBlock(db.blocks)(id);
    if b.status == Orphan {
      SumConstant(everyone, 0, term);
    } else {
      assert b.amounts.Keys <= everyone by {
        assert forall a :: a in b.amounts ==> a in Addresses(db.blocks);
      }
      SumRestrict(everyone, b.amounts.Keys, term);
      SumCongruent(b.amounts.Keys, term, Reader(b.amounts));
      assert BlockBalances(b);
    }
  }

  /**
    Conservation: the rewards of all pending and mature blocks are the pool's
    fees plus everything pending, reserved or owed, over any set of addresses
    that covers the allocations.
   */
  lemma Conservation(db: Db, everyone: set<string>)
    requires Sound(db) && Addresses(db.blocks) <= everyone
    ensures Sum(db.blocks.Keys, RewardTerm(db.blocks)) ==
      Sum(db.blocks.Keys, PoolFeeTerm(db.blocks)) + Sum(everyone, AccountTerm(db))
  {
    var ids, blocks := db.blocks.Keys, db.blocks;
    var credits := (id: string) => Sum(everyone, CreditsOfBlock(blocks)(id));
    forall a | a in everyone ensures AccountTerm(db)(a) == Sum(ids, CreditsOfAddress(blocks)(a)) {
      CreditByBlock(db, a);
    }
    SumExchange(ids, everyone, CreditsOfBlock(blocks), CreditsOfAddress(blocks), credits, AccountTerm(db));
    forall id | id in ids ensures RewardTerm(blocks)(id) == PoolFeeTerm(blocks)(id) + credits(id) {
      RewardByAddress(db, everyone, id);
    }
    SumAdd(ids, RewardTerm(blocks), PoolFeeTerm(blocks), credits);
  }
}

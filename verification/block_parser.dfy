/**
  The block parser's single-block mode: a cursor, a window of stored block rows, a fork
  check against the row below the cursor, one step back on a fork, overwriting on
  conflict and trimming to the last twenty rows.
 */
module BlockParsing {
  import opened UInt64

  type Hash = string

  /** A row of t_block_parser_info without its number, which is the table's unique key. */
  datatype Row = Row(blockHash: Hash, parentHash: Hash)

  /** A block header as the node serves it. */
  datatype Header = Header(number: nat, hash: Hash, parentHash: Hash) {
    function ToRow(): Row { Row(hash, parentHash) }
  }

  /** The parser's fields and table. */
  datatype ParserState = ParserState(cursor: nat, rows: map<nat, Row>)

  /** How far a call gets once it has the block. */
  datatype Work = CheckFails | ParseFails | StoreFails | TrimFails | Succeeds

  /** What one call meets: the chain the node serves then, and how far it gets. */
  datatype Visit = Visit(chain: seq<Header>, work: Work)

  const WINDOW: nat := 20

  // ---------- one call ----------

  predicate IsFork(s: ParserState, parentHash: Hash) {
    var prev := Wrap(s.cursor - 1);
    prev in s.rows && s.rows[prev].blockHash != parentHash
  }

  function Trim(rows: map<nat, Row>, bound: nat): map<nat, Row> {
    map n | n in rows && n >= bound :: rows[n]
  }

  function StepBack(s: ParserState): ParserState {
    s.(cursor := Wrap(s.cursor - 1))
  }

  /** The block's row is written and the cursor moved on. */
  function Written(s: ParserState, header: Header): ParserState {
    ParserState(Wrap(s.cursor + 1), s.rows[s.cursor := header.ToRow()])
  }

  function StepForward(s: ParserState, header: Header): ParserState {
    var t := Written(s, header);
    t.(rows := Trim(t.rows, Wrap(t.cursor - WINDOW)))
  }

  function SubModeStep(s: ParserState, v: Visit): ParserState {
    if s.cursor >= |v.chain| || v.work.CheckFails? then s
    else if IsFork(s, v.chain[s.cursor].parentHash) then StepBack(s)
    else if v.work.ParseFails? || v.work.StoreFails? then s
    else if v.work.TrimFails? then Written(s, v.chain[s.cursor])
    else StepForward(s, v.chain[s.cursor])
  }

  function Run(s: ParserState, visits: seq<Visit>): ParserState
    decreases |visits|
  {
    if visits == [] then s else Run(SubModeStep(s, visits[0]), visits[1..])
  }

  // ---------- the invariant ----------

  /** Numbered from zero and linked by parent hash. */
  ghost predicate WellFormedChain(chain: seq<Header>) {
    && |chain| <= MODULUS - WINDOW
    && (forall n | 0 <= n < |chain| :: chain[n].number == n)
    && (forall n | 0 < n < |chain| :: chain[n].parentHash == chain[n - 1].hash)
  }

  /** No two different headers among those ever served share a hash. */
  ghost predicate CollisionFree(seen: iset<Header>) {
    forall x, y | x in seen && y in seen && x.hash == y.hash :: x == y
  }

  ghost predicate Served(chain: seq<Header>, seen: iset<Header>) {
    forall n | 0 <= n < |chain| :: chain[n] in seen
  }

  ghost predicate Contiguous(rows: map<nat, Row>, lo: nat, hi: nat) {
    forall n :: n in rows <==> lo <= n < hi
  }

  /** The rows below the cursor are joined by their hashes. */
  ghost predicate Linked(s: ParserState) {
    forall n | n in s.rows && n + 1 in s.rows && n + 1 < s.cursor ::
      s.rows[n + 1].parentHash == s.rows[n].blockHash
  }

  ghost predicate FromServedBlocks(rows: map<nat, Row>, seen: iset<Header>) {
    forall n | n in rows :: Header(n, rows[n].blockHash, rows[n].parentHash) in seen
  }

  ghost predicate WindowAt(s: ParserState, lo: nat, hi: nat) {
    && hi <= MODULUS - WINDOW
    && Contiguous(s.rows, lo, hi)
    && (s.rows != map[] ==> lo <= s.cursor <= hi)
  }

  /** The window has no gap, the cursor is in it or just above, rows below the cursor are linked. */
  ghost predicate Inv(s: ParserState, seen: iset<Header>) {
    && s.cursor <= MODULUS - WINDOW
    && (exists lo: nat, hi: nat :: WindowAt(s, lo, hi))
    && Linked(s)
    && FromServedBlocks(s.rows, seen)
  }

  lemma SubModeStepKeepsInv(s: ParserState, v: Visit, seen: iset<Header>)
    requires Inv(s, seen) && WellFormedChain(v.chain) && Served(v.chain, seen)
    ensures Inv(SubModeStep(s, v), seen)
  {
    if s.cursor < |v.chain| && !v.work.CheckFails? {
      var header := v.chain[s.cursor];
      if IsFork(s, header.parentHash) {
        StepBackKeepsInv(s, seen);
      } else {
        StepForwardKeepsInv(s, header, seen);
      }
    }
  }

  lemma StepBackKeepsInv(s: ParserState, seen: iset<Header>)
    requires Inv(s, seen) && Wrap(s.cursor - 1) in s.rows
    ensures Inv(StepBack(s), seen)
  {
    var lo: nat, hi: nat :| WindowAt(s, lo, hi);
    assert WindowAt(StepBack(s), lo, hi);
  }

  lemma WrittenKeepsInv(s: ParserState, header: Header, seen: iset<Header>)
    requires Inv(s, seen) && header in seen && header.number == s.cursor < MODULUS - WINDOW
    requires !IsFork(s, header.parentHash)
    ensures Inv(Written(s, header), seen) && Written(s, header).cursor == s.cursor + 1
  {
    var lo: nat, hi: nat :| WindowAt(s, lo, hi);
    var c := s.cursor;
    var lo' := if s.rows == map[] then c else lo;
    var hi' := if s.rows == map[] || hi < c + 1 then c + 1 else hi;
    assert Contiguous(s.rows[c := header.ToRow()], lo', hi') by {
      if s.rows != map[] {
        var n :| n in s.rows;
      }
    }
    assert WindowAt(Written(s, header), lo', hi');
  }

  /** Trimming keeps the window's shape, whether it keeps the last rows or, with a wrapped bound, none. */
  lemma TrimKeepsInv(t: ParserState, seen: iset<Header>)
    requires Inv(t, seen) && t.cursor > 0
    ensures Inv(t.(rows := Trim(t.rows, Wrap(t.cursor - WINDOW))), seen)
  {
    var lo: nat, hi: nat :| WindowAt(t, lo, hi);
    var bound := Wrap(t.cursor - WINDOW);
    var rows := Trim(t.rows, bound);
    var low := if lo < bound then bound else lo;
    assert Contiguous(rows, low, hi);
    if t.cursor < WINDOW {
      assert rows == map[];
    }
    assert WindowAt(t.(rows := rows), low, hi);
  }

  lemma StepForwardKeepsInv(s: ParserState, header: Header, seen: iset<Header>)
    requires Inv(s, seen) && header in seen && header.number == s.cursor < MODULUS - WINDOW
    requires !IsFork(s, header.parentHash)
    ensures Inv(StepForward(s, header), seen) && Inv(Written(s, header), seen)
  {
    WrittenKeepsInv(s, header, seen);
    hide Inv, Written, Trim;
    TrimKeepsInv(Written(s, header), seen);
  }

  /** Whatever chains the node serves from call to call, the window keeps its shape. */
  lemma {:induction false} RunKeepsInv(s: ParserState, visits: seq<Visit>, seen: iset<Header>)
    requires Inv(s, seen)
    requires forall v | v in visits :: WellFormedChain(v.chain) && Served(v.chain, seen)
    ensures Inv(Run(s, visits), seen)
    decreases |visits|
  {
    if visits != [] {
      SubModeStepKeepsInv(s, visits[0], seen);
      RunKeepsInv(SubModeStep(s, visits[0]), visits[1..], seen);
    }
  }

  /** The wrapped bound `cursor - 20` trims to twenty rows from cursor 20 on; below that it deletes every row. */
  lemma TrimmedWindow(s: ParserState, header: Header, seen: iset<Header>)
    requires Inv(s, seen) && s.cursor < MODULUS - 20
    ensures var t := StepForward(s, header);
            && (t.cursor >= 20 ==> forall n :: n in t.rows <==> (n in s.rows || n == s.cursor) && n >= t.cursor - 20)
            && (t.cursor < 20 ==> t.rows == map[])
  {
  }

  function Restart(s: ParserState, highest: nat): ParserState {
    s.(cursor := Wrap(highest + 1))
  }

  /**
    A restart resumes above the highest stored row. It keeps the invariant exactly when no link is broken
    anywhere in the window, that is when no step back was left half way through a reorganisation.
   */
  lemma RestartKeepsInvIff(s: ParserState, highest: nat, seen: iset<Header>)
    requires Inv(s, seen) && highest in s.rows && forall n | n in s.rows :: n <= highest
    ensures Inv(Restart(s, highest), seen) <==>
            forall n | n in s.rows && n + 1 in s.rows :: s.rows[n + 1].parentHash == s.rows[n].blockHash
  {
    var lo: nat, hi: nat :| WindowAt(s, lo, hi);
    assert hi - 1 in s.rows;
    assert WindowAt(Restart(s, highest), lo, hi);
  }

  // ---------- one check certifies the window ----------

  ghost predicate Canonical(s: ParserState, chain: seq<Header>, n: nat)
    requires n in s.rows && n < |chain|
  {
    s.rows[n] == chain[n].ToRow()
  }

  ghost predicate CanonicalBelowCursor(s: ParserState, chain: seq<Header>)
    requires s.cursor <= |chain|
  {
    forall n | n in s.rows && n < s.cursor :: Canonical(s, chain, n)
  }

  /** Below the cursor the mismatched rows form a suffix: under a canonical row every row is canonical. */
  lemma {:induction false} CanonicalDownwards(s: ParserState, chain: seq<Header>, seen: iset<Header>, m: nat, n: nat)
    requires Inv(s, seen) && WellFormedChain(chain) && Served(chain, seen) && CollisionFree(seen)
    requires m <= n < s.cursor <= |chain| && m in s.rows && n in s.rows && Canonical(s, chain, n)
    ensures Canonical(s, chain, m)
    decreases n - m
  {
    if m < n {
      var lo: nat, hi: nat :| WindowAt(s, lo, hi);
      assert m + 1 in s.rows;
      CanonicalDownwards(s, chain, seen, m + 1, n);
      HashIdentifies(s, chain, seen, m);
    }
  }

  lemma HashIdentifies(s: ParserState, chain: seq<Header>, seen: iset<Header>, n: nat)
    requires FromServedBlocks(s.rows, seen) && WellFormedChain(chain) && Served(chain, seen) && CollisionFree(seen)
    requires n in s.rows && n < |chain| && s.rows[n].blockHash == chain[n].hash
    ensures Canonical(s, chain, n)
  {
  }

  /** One passing parent-hash check is equivalent to every retained row below the cursor being canonical. */
  lemma PassingCheckCertifiesWindow(s: ParserState, chain: seq<Header>, seen: iset<Header>)
    requires Inv(s, seen) && WellFormedChain(chain) && Served(chain, seen) && CollisionFree(seen)
    requires s.cursor < |chain|
    ensures !IsFork(s, chain[s.cursor].parentHash) <==> CanonicalBelowCursor(s, chain)
  {
    var c := s.cursor;
    var lo: nat, hi: nat :| WindowAt(s, lo, hi);
    if c > 0 && c - 1 in s.rows {
      assert chain[c].parentHash == chain[c - 1].hash;
      if !IsFork(s, chain[c].parentHash) {
        HashIdentifies(s, chain, seen, c - 1);
        forall n | n in s.rows && n < c ensures Canonical(s, chain, n) {
          CanonicalDownwards(s, chain, seen, n, c - 1);
        }
      } else {
        assert !Canonical(s, chain, c - 1);
      }
    }
  }

  // ---------- convergence ----------

  ghost function Mismatched(s: ParserState, chain: seq<Header>): set<nat>
    requires s.cursor <= |chain|
  {
    set n | n in s.rows && n < s.cursor && !Canonical(s, chain, n)
  }

  lemma StepBackRemovesMismatch(s: ParserState, chain: seq<Header>, seen: iset<Header>)
    requires Inv(s, seen) && WellFormedChain(chain) && s.cursor < |chain|
    requires IsFork(s, chain[s.cursor].parentHash)
    ensures s.cursor > 0 && s.cursor - 1 in Mismatched(s, chain)
    ensures Mismatched(StepBack(s), chain) == Mismatched(s, chain) - {s.cursor - 1}
  {
  }

  lemma StepForwardStaysCanonical(s: ParserState, chain: seq<Header>, seen: iset<Header>)
    requires Inv(s, seen) && WellFormedChain(chain) && Served(chain, seen) && CollisionFree(seen)
    requires s.cursor < |chain| && !IsFork(s, chain[s.cursor].parentHash)
    ensures Mismatched(s, chain) == {} && Mismatched(StepForward(s, chain[s.cursor]), chain) == {}
  {
    PassingCheckCertifiesWindow(s, chain, seen);
  }

  /** What holds between the calls of a catch-up that began at `start` with a cursor below `target`. */
  ghost predicate CatchingUp(start: ParserState, s: ParserState, chain: seq<Header>, target: nat, calls: nat)
    requires start.cursor < target <= |chain| && s.cursor <= |chain|
  {
    && s.cursor <= target
    && calls + 2 * |Mismatched(s, chain)| + (target - s.cursor)
       == 2 * |Mismatched(start, chain)| + (target - start.cursor)
    && (s.cursor > start.cursor ==> Mismatched(s, chain) == {})
    && (Mismatched(s, chain) != {} ==> s.rows == start.rows)
    && OnlyOldRowsAbove(start, s)
  }

  lemma CatchUpProgress(start: ParserState, s: ParserState, chain: seq<Header>, target: nat, calls: nat,
      seen: iset<Header>)
    requires Inv(s, seen) && WellFormedChain(chain) && Served(chain, seen) && CollisionFree(seen)
    requires start.cursor < target < |chain| && s.cursor < target && CatchingUp(start, s, chain, target, calls)
    ensures var t := SubModeStep(s, Visit(chain, Succeeds));
            && Inv(t, seen) && t.cursor <= target && CatchingUp(start, t, chain, target, calls + 1)
            && (|Mismatched(t, chain)| < |Mismatched(s, chain)|
                || (|Mismatched(t, chain)| == |Mismatched(s, chain)| && t.cursor == s.cursor + 1))
  {
    SubModeStepKeepsInv(s, Visit(chain, Succeeds), seen);
    if IsFork(s, chain[s.cursor].parentHash) {
      StepBackRemovesMismatch(s, chain, seen);
    } else {
      StepForwardStaysCanonical(s, chain, seen);
    }
  }

  /** Rows a run leaves at or above its cursor are rows it started with. */
  ghost predicate OnlyOldRowsAbove(s: ParserState, t: ParserState) {
    forall n | n in t.rows && n >= t.cursor :: n in s.rows && t.rows[n] == s.rows[n]
  }

  lemma CaughtUp(start: ParserState, s: ParserState, chain: seq<Header>, target: nat, calls: nat)
    requires start.cursor < target < |chain| && s.cursor == target && CatchingUp(start, s, chain, target, calls)
    ensures CanonicalBelowCursor(s, chain)
    ensures calls == 2 * |Mismatched(start, chain)| + (target - start.cursor)
  {
    assert Mismatched(s, chain) == {};
    forall n | n in s.rows && n < s.cursor ensures Canonical(s, chain, n) {
      assert n !in Mismatched(s, chain);
    }
  }

  datatype Outcome = Done | ErrGetBlock | ErrCheckFork | ErrParse | ErrCreateBlockInfo | ErrDeleteBlockInfo

  function Reported(work: Work): Outcome {
    match work
    case CheckFails => ErrCheckFork
    case ParseFails => ErrParse
    case StoreFails => ErrCreateBlockInfo
    case TrimFails => ErrDeleteBlockInfo
    case Succeeds => Done
  }

  class BlockParser {
    var currentBlockNumber: nat
    var rows: map<nat, Row>

    function State(): ParserState
      reads this
    {
      ParserState(currentBlockNumber, rows)
    }

    constructor (start: nat)
      ensures State() == ParserState(start, map[])
    {
      currentBlockNumber, rows := start, map[];
    }

    /** FindBlockInfo: the highest stored block number. */
    method FindBlockInfo() returns (highest: nat)
      requires rows != map[]
      ensures highest in rows && forall n | n in rows :: n <= highest
    {
      highest :| highest in rows;
      var rest := rows.Keys - {highest};
      while rest != {}
        invariant rest <= rows.Keys && highest in rows
        invariant forall n | n in rows && n !in rest :: n <= highest
        decreases |rest|
      {
        var n :| n in rest;
        if n > highest { highest := n; }
        rest := rest - {n};
      }
    }

    /** Where parsing resumes; Run then moves one past it. */
    method InitCurrentBlockNumber(tip: nat)
      modifies this`currentBlockNumber
      ensures rows != map[] ==> currentBlockNumber in rows && forall n | n in rows :: n <= currentBlockNumber
      ensures rows == map[] ==>
                currentBlockNumber == if old(currentBlockNumber) == 0 then tip else old(currentBlockNumber)
    {
      if rows != map[] {
        currentBlockNumber := FindBlockInfo();
      } else if currentBlockNumber == 0 && tip > 0 {
        currentBlockNumber := tip;
      }
    }

    method CheckFork(parentHash: Hash) returns (fork: bool)
      ensures fork == IsFork(State(), parentHash)
    {
      var prev := Wrap(currentBlockNumber - 1);
      if prev !in rows {
        return false;
      } else if rows[prev].blockHash != parentHash {
        return true;
      }
      return false;
    }

    method CreateBlockInfo(number: nat, blockHash: Hash, parentHash: Hash)
      modifies this`rows
      ensures rows == old(rows)[number := Row(blockHash, parentHash)]
    {
      rows := rows[number := Row(blockHash, parentHash)];
    }

    method DeleteBlockInfo(bound: nat)
      modifies this`rows
      ensures rows == Trim(old(rows), bound)
    {
      rows := map n | n in rows && n >= bound :: rows[n];
    }

    method ParserSubMode(v: Visit) returns (outcome: Outcome)
      modifies this
      ensures State() == SubModeStep(old(State()), v)
      ensures outcome == if old(currentBlockNumber) >= |v.chain| then ErrGetBlock
                         else if v.work.CheckFails? then ErrCheckFork
                         else if IsFork(old(State()), v.chain[old(currentBlockNumber)].parentHash) then Done
                         else Reported(v.work)
    {
      if currentBlockNumber >= |v.chain| {
        return ErrGetBlock;
      }
      var block := v.chain[currentBlockNumber];
      if v.work.CheckFails? {
        return ErrCheckFork;
      }
      var fork := CheckFork(block.parentHash);
      if fork {
        currentBlockNumber := Wrap(currentBlockNumber - 1);
      } else if v.work.ParseFails? {
        return ErrParse;
      } else {
        if v.work.StoreFails? {
          return ErrCreateBlockInfo;
        }
        CreateBlockInfo(currentBlockNumber, block.hash, block.parentHash);
        currentBlockNumber := Wrap(currentBlockNumber + 1);
        if v.work.TrimFails? {
          return ErrDeleteBlockInfo;
        }
        DeleteBlockInfo(Wrap(currentBlockNumber - WINDOW));
      }
      return Done;
    }

    /**
      Once the chain stops changing, the polling loop ends at the confirmed height after exactly two
      calls per mismatched row and one per missing block, with every row below the cursor canonical.
     */
    method CatchUp(chain: seq<Header>, confirmNum: nat, ghost seen: iset<Header>) returns (calls: nat)
      requires Inv(State(), seen) && WellFormedChain(chain) && Served(chain, seen) && CollisionFree(seen)
      requires confirmNum < |chain|
      modifies this
      ensures Inv(State(), seen)
      ensures var target := |chain| - 1 - confirmNum;
              if old(currentBlockNumber) >= target then calls == 0 && State() == old(State()) else
              && currentBlockNumber == target
              && CanonicalBelowCursor(State(), chain)
              && calls == 2 * |Mismatched(old(State()), chain)| + (target - old(currentBlockNumber))
      ensures OnlyOldRowsAbove(old(State()), State())
    {
      calls := 0;
      var target := Wrap(|chain| - 1 - confirmNum);
      ghost var start := State();
      if currentBlockNumber < target {
        while currentBlockNumber < target
          invariant Inv(State(), seen)
          invariant currentBlockNumber <= target && CatchingUp(start, State(), chain, target, calls)
          decreases |Mismatched(State(), chain)|, target - currentBlockNumber
        {
          CatchUpProgress(start, State(), chain, target, calls, seen);
          var _ := ParserSubMode(Visit(chain, Succeeds));
          calls := calls + 1;
        }
        CaughtUp(start, State(), chain, target, calls);
      }
    }
  }
}

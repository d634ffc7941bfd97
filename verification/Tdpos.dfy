/** The TDPoS miner schedule: which term, proposer and block slot an instant belongs to, the
    look-ahead to the next slot, and the search for the block that fixed a term's validators. */
module Tdpos {
  import opened Types

  const MILLISECOND: int := 1_000_000

  /** Intervals are in milliseconds, initTimestamp in nanoseconds. */
  datatype Config = Config(period: int, blockNum: int, proposerNum: int, alternateInterval: int,
                           termInterval: int, initTimestamp: int, startHeight: int) {
    ghost predicate Valid() {
      && period > 0 && blockNum >= 1 && proposerNum >= 1
      && termInterval >= alternateInterval >= period
      && initTimestamp >= 0
    }
  }

  datatype Slot = Slot(term: int, pos: int, blockPos: int)

  /** The term, proposer and block position at a timestamp; all zero before the start. */
  function MinerScheduling(c: Config, timestamp: int): (s: Slot)
    requires c.Valid()
  {
    if timestamp < c.initTimestamp then Slot(0, 0, 0)
    else
      var t, initT := timestamp / MILLISECOND, c.initTimestamp / MILLISECOND;
      TermTimeSplit(c);
      var termTime := TermTime(c);
      var term := (t - initT) / termTime + 1;
      var termBegin := initT + (term - 1) * termTime + c.termInterval - c.alternateInterval;
      if termBegin >= t then Slot(term, 0, -1)
      else
        PosTimePositive(c);
        var posTime := c.alternateInterval + c.period * (c.blockNum - 1);
        var pos := (t - termBegin) / posTime;
        var proposerBegin := termBegin + pos * posTime + c.alternateInterval - c.period;
        if proposerBegin >= t then Slot(term, pos, -1)
        else Slot(term, pos, (t - proposerBegin) / c.period)
  }

  function TermTime(c: Config): int {
    c.termInterval + (c.blockNum - 1) * c.proposerNum * c.period + (c.proposerNum - 1) * c.alternateInterval
  }

  /** What to add to the current time, in nanoseconds, to look ahead to the given round. */
  function CalAddTime(c: Config, now: int, round: int, tipHeight: int): (add: int)
    requires c.Valid()
  {
    var s := MinerScheduling(c, now);
    if round <= tipHeight then 0
    else if s.pos == c.proposerNum - 1 && s.blockPos == c.blockNum - 1 then c.termInterval * MILLISECOND
    else if s.blockPos == c.blockNum - 1 then c.alternateInterval * MILLISECOND
    else c.period * MILLISECOND
  }

  // ---------------------------------------------------------------- the schedule as a partition of time

  ghost function PosTime(c: Config): int {
    c.alternateInterval + c.period * (c.blockNum - 1)
  }

  lemma PosTimePositive(c: Config)
    requires c.Valid()
    ensures PosTime(c) >= c.alternateInterval > 0
  {
  }

  lemma TermTimeSplit(c: Config)
    requires c.Valid()
    ensures TermTime(c) == c.termInterval - c.alternateInterval + c.proposerNum * PosTime(c)
    ensures TermTime(c) > 0
  {
  }

  /** The slots of the schedule, in order: every proposer's stretch opens with a pause (blockPos
      -1), the pause of the first proposer being the pause between terms. */
  ghost predicate IsSlot(c: Config, s: Slot) {
    1 <= s.term && 0 <= s.pos < c.proposerNum && -1 <= s.blockPos < c.blockNum
  }

  ghost predicate Before(a: Slot, b: Slot) {
    || a.term < b.term
    || (a.term == b.term && a.pos < b.pos)
    || (a.term == b.term && a.pos == b.pos && a.blockPos < b.blockPos)
  }

  ghost function Next(c: Config, s: Slot): Slot {
    if s.blockPos + 1 < c.blockNum then s.(blockPos := s.blockPos + 1)
    else if s.pos + 1 < c.proposerNum then Slot(s.term, s.pos + 1, -1)
    else Slot(s.term + 1, 0, -1)
  }

  /** The first millisecond after the pause between terms. */
  ghost function TermOpens(c: Config, term: int): int {
    c.initTimestamp / MILLISECOND + (term - 1) * TermTime(c) + c.termInterval - c.alternateInterval
  }

  /** The first millisecond of a slot. */
  ghost function Begin(c: Config, s: Slot): int {
    var proposerBegin := TermOpens(c, s.term) + s.pos * PosTime(c) + c.alternateInterval - c.period;
    if s.blockPos >= 1 then proposerBegin + s.blockPos * c.period
    else if s.blockPos == 0 then proposerBegin + 1
    else if s.pos == 0 then TermOpens(c, s.term) - (c.termInterval - c.alternateInterval)
    else TermOpens(c, s.term) + s.pos * PosTime(c)
  }

  /** Slot s covers millisecond t. */
  ghost predicate Covers(c: Config, s: Slot, t: int) {
    IsSlot(c, s) && Begin(c, s) <= t < Begin(c, Next(c, s))
  }

  /** A slot lasts one period, except that the first of each proposer is one millisecond short. */
  lemma SlotLength(c: Config, s: Slot)
    requires c.Valid() && IsSlot(c, s) && s.blockPos >= 0
    ensures Begin(c, Next(c, s)) - Begin(c, s) == if s.blockPos == 0 then c.period - 1 else c.period
  {
    if s.blockPos + 1 < c.blockNum {
      Distribute(s.blockPos, 1, c.period);
    } else {
      TurnEnds(c, s);
    }
  }

  /** The last slot of a turn ends where the next turn begins. */
  lemma TurnEnds(c: Config, s: Slot)
    requires c.Valid() && IsSlot(c, s) && s.blockPos == c.blockNum - 1
    ensures Begin(c, Next(c, s)) == TermOpens(c, s.term) + s.pos * PosTime(c) + PosTime(c)
    ensures Begin(c, s) == TermOpens(c, s.term) + s.pos * PosTime(c) + PosTime(c)
                           - if s.blockPos == 0 then c.period - 1 else c.period
  {
    assert s.blockPos * c.period == c.period * (c.blockNum - 1);
    Distribute(s.pos, 1, PosTime(c));
    if s.pos + 1 == c.proposerNum {
      Distribute(s.term - 1, 1, TermTime(c));
      TermTimeSplit(c);
      assert (s.pos + 1) * PosTime(c) == c.proposerNum * PosTime(c);
    }
  }

  /** The time from a block slot to the next one: a period within a proposer's turn, the alternate interval
      to the next proposer, the term interval to the next term; the first slot of a turn begins a
      millisecond late. */
  lemma SlotIntervals(c: Config, s: Slot)
    requires c.Valid() && IsSlot(c, s) && s.blockPos >= 0
    ensures var n := NextBlockSlot(c, s);
            Begin(c, n) - Begin(c, s)
            == (if s.blockPos < c.blockNum - 1 then c.period
                else if s.pos < c.proposerNum - 1 then c.alternateInterval
                else c.termInterval)
               + (if n.blockPos == 0 then 1 else 0) - (if s.blockPos == 0 then 1 else 0)
  {
    Distribute(s.blockPos, 1, c.period);
    Distribute(s.pos, 1, PosTime(c));
    Distribute(s.term - 1, 1, TermTime(c));
    TermTimeSplit(c);
    assert s.pos == c.proposerNum - 1 ==> (s.pos + 1) * PosTime(c) == c.proposerNum * PosTime(c);
    assert s.blockPos == c.blockNum - 1 ==> s.blockPos * c.period == c.period * (c.blockNum - 1);
  }

  /** The first block slot of all begins a term interval less a period after the start. */
  lemma ScheduleOpens(c: Config)
    requires c.Valid()
    ensures Begin(c, Slot(1, 0, 0)) == c.initTimestamp / 1_000_000 + c.termInterval - c.period + 1
  {
  }

  /** Later slots begin no earlier than an earlier one ends. */
  lemma SlotsOrdered(c: Config, a: Slot, b: Slot)
    requires c.Valid() && IsSlot(c, a) && IsSlot(c, b) && Before(a, b)
    ensures Begin(c, Next(c, a)) <= Begin(c, b)
  {
    PosTimePositive(c);
    TermTimeSplit(c);
    EndWithinTerm(c, a);
    if a.term < b.term {
      TermsApart(c, a, b);
    } else if a.pos < b.pos {
      EndWithinPos(c, a);
      MulAtLeast(a.pos + 1, b.pos, PosTime(c));
    } else {
      BlocksApart(c, a, b);
    }
  }

  lemma BlocksApart(c: Config, a: Slot, b: Slot)
    requires c.Valid() && IsSlot(c, a) && IsSlot(c, b)
    requires a.term == b.term && a.pos == b.pos && a.blockPos < b.blockPos
    ensures Begin(c, Next(c, a)) <= Begin(c, b)
  {
    if a.blockPos >= 0 {
      MulAtLeast(a.blockPos + 1, b.blockPos, c.period);
    } else if b.blockPos >= 1 {
      MulAtLeast(1, b.blockPos, c.period);
    }
  }

  /** A slot ends by the time the next proposer's stretch opens. */
  lemma EndWithinPos(c: Config, a: Slot)
    requires c.Valid() && IsSlot(c, a)
    ensures Begin(c, Next(c, a)) <= TermOpens(c, a.term) + (a.pos + 1) * PosTime(c)
  {
    Distribute(a.pos, 1, PosTime(c));
    TermTimeSplit(c);
    if a.blockPos + 1 < c.blockNum {
      if a.blockPos >= 0 {
        MulAtLeast(a.blockPos + 1, c.blockNum - 1, c.period);
      } else {
        PosTimePositive(c);
      }
    } else if a.pos + 1 == c.proposerNum {
      Distribute(a.term - 1, 1, TermTime(c));
      assert (a.pos + 1) * PosTime(c) == c.proposerNum * PosTime(c);
    }
  }

  lemma EndWithinTerm(c: Config, a: Slot)
    requires c.Valid() && IsSlot(c, a)
    ensures Begin(c, Next(c, a)) <= TermOpens(c, a.term + 1) - (c.termInterval - c.alternateInterval)
  {
    EndWithinPos(c, a);
    PosTimePositive(c);
    MulAtLeast(a.pos + 1, c.proposerNum, PosTime(c));
    Distribute(a.term - 1, 1, TermTime(c));
    TermTimeSplit(c);
  }

  lemma TermsApart(c: Config, a: Slot, b: Slot)
    requires c.Valid() && IsSlot(c, a) && IsSlot(c, b) && a.term < b.term
    ensures Begin(c, Next(c, a)) <= Begin(c, b)
  {
    EndWithinTerm(c, a);
    TermTimeSplit(c);
    MulAtLeast(a.term, b.term - 1, TermTime(c));
    PosTimePositive(c);
    MulAtLeast(0, b.pos, PosTime(c));
    if b.blockPos >= 1 {
      MulAtLeast(1, b.blockPos, c.period);
    }
  }

  /** The slot computed for an instant covers it. */
  lemma SlotCovers(c: Config, timestamp: int)
    requires c.Valid() && timestamp >= c.initTimestamp
    ensures Covers(c, MinerScheduling(c, timestamp), timestamp / MILLISECOND)
  {
    var t, initT := timestamp / MILLISECOND, c.initTimestamp / MILLISECOND;
    var s := MinerScheduling(c, timestamp);
    TermTimeSplit(c);
    PosTimePositive(c);
    var x := t - initT;
    DivBounds(x, TermTime(c));
    var opens := TermOpens(c, s.term);
    Distribute(s.term - 1, 1, TermTime(c));
    if opens >= t {
    } else {
      var z := t - opens;
      DivBounds(z, PosTime(c));
      QuotientBelow(z, PosTime(c), c.proposerNum);
      Distribute(z / PosTime(c), 1, PosTime(c));
      CoversWithinPos(c, s.term, z / PosTime(c), z - z / PosTime(c) * PosTime(c));
    }
  }

  /** SlotCovers inside the stretch of one proposer, v milliseconds into it. */
  lemma CoversWithinPos(c: Config, term: int, pos: int, v: int)
    requires c.Valid() && term >= 1 && 0 <= pos < c.proposerNum && 0 <= v < PosTime(c)
    ensures var w := v - (c.alternateInterval - c.period);
            Covers(c, Slot(term, pos, if w <= 0 then -1 else w / c.period), TermOpens(c, term) + pos * PosTime(c) + v)
  {
    var w := v - (c.alternateInterval - c.period);
    if w > 0 {
      var k := w / c.period;
      DivBounds(w, c.period);
      Distribute(k, 1, c.period);
      Distribute(c.blockNum - 1, 1, c.period);
      QuotientBelow(w, c.period, c.blockNum);
      SlotLength(c, Slot(term, pos, k));
    }
  }

  /** The bounds a leader's index relies on. */
  lemma SlotInRange(c: Config, timestamp: int)
    requires c.Valid() && timestamp >= c.initTimestamp
    ensures IsSlot(c, MinerScheduling(c, timestamp))
  {
    SlotCovers(c, timestamp);
  }

  /** Slots partition time: an instant lies in exactly the slot computed for it. */
  lemma SlotsPartition(c: Config, timestamp: int, s: Slot)
    requires c.Valid() && timestamp >= c.initTimestamp
    ensures MinerScheduling(c, timestamp) == s <==> Covers(c, s, timestamp / MILLISECOND)
  {
    var r := MinerScheduling(c, timestamp);
    SlotCovers(c, timestamp);
    if Covers(c, s, timestamp / MILLISECOND) && r != s {
      if Before(r, s) {
        SlotsOrdered(c, r, s);
      } else {
        SlotsOrdered(c, s, r);
      }
      assert false;
    }
  }

  /** Schedule positions never go back in time, not even across the start of the schedule. */
  lemma SlotsMonotone(c: Config, earlier: int, later: int)
    requires c.Valid() && earlier <= later
    ensures !Before(MinerScheduling(c, later), MinerScheduling(c, earlier))
  {
    if earlier >= c.initTimestamp {
      SlotCovers(c, earlier);
      SlotCovers(c, later);
      DivMonotone(earlier, later, MILLISECOND);
      if Before(MinerScheduling(c, later), MinerScheduling(c, earlier)) {
        SlotsOrdered(c, MinerScheduling(c, later), MinerScheduling(c, earlier));
        assert false;
      }
    } else if later >= c.initTimestamp {
      SlotCovers(c, later);
    }
  }

  // ---------------------------------------------------------------- look-ahead

  /** The block slot after s: the pause before a proposer is skipped. */
  ghost function NextBlockSlot(c: Config, s: Slot): Slot {
    var n := Next(c, s);
    if n.blockPos == -1 then n.(blockPos := 0) else n
  }

  /** Where a look-ahead from late milliseconds into slot s lands. */
  ghost function Landing(c: Config, s: Slot, late: int): Slot {
    if s.blockPos == c.blockNum - 1 && s.blockPos > 0 && late == 0 then Next(c, s) else NextBlockSlot(c, s)
  }

  /** From inside a block slot, the look-ahead for a future round gives the term and proposer of the
      next block slot. It also gives that slot itself, unless a proposer with several slots leaves
      the last of them at its very first millisecond: then it gives the pause before the next one. */
  lemma LookAhead(c: Config, now: int, round: int, tipHeight: int)
    requires c.Valid() && now >= c.initTimestamp && round > tipHeight
    requires MinerScheduling(c, now).blockPos >= 0
    ensures var s := MinerScheduling(c, now);
            var r := MinerScheduling(c, now + CalAddTime(c, now, round, tipHeight));
            var n := NextBlockSlot(c, s);
            && r.term == n.term && r.pos == n.pos
            && r.blockPos == if s.blockPos == c.blockNum - 1 && s.blockPos > 0 && now / MILLISECOND == Begin(c, s)
                             then -1 else n.blockPos
  {
    var s := MinerScheduling(c, now);
    SlotCovers(c, now);
    var late := now / MILLISECOND - Begin(c, s);
    var d := Ahead(c, s);
    LandsAhead(c, s, late);
    Shift(now, d);
    SlotsPartition(c, now + d * MILLISECOND, Landing(c, s, late));
  }

  /** For a round that has passed there is no look-ahead. */
  lemma PastRound(c: Config, now: int, round: int, tipHeight: int)
    requires c.Valid() && round <= tipHeight
    ensures MinerScheduling(c, now + CalAddTime(c, now, round, tipHeight)) == MinerScheduling(c, now)
  {
  }

  /** The look-ahead in milliseconds. */
  ghost function Ahead(c: Config, s: Slot): int {
    if s.pos == c.proposerNum - 1 && s.blockPos == c.blockNum - 1 then c.termInterval
    else if s.blockPos == c.blockNum - 1 then c.alternateInterval
    else c.period
  }

  lemma LandsAhead(c: Config, s: Slot, late: int)
    requires c.Valid() && IsSlot(c, s) && s.blockPos >= 0
    requires 0 <= late < Begin(c, Next(c, s)) - Begin(c, s)
    ensures Covers(c, Landing(c, s, late), Begin(c, s) + late + Ahead(c, s))
  {
    if s.blockPos < c.blockNum - 1 {
      LandsOn(c, s, late);
    } else {
      LandsOnProposer(c, s, late);
    }
  }

  lemma LandsOn(c: Config, s: Slot, late: int)
    requires c.Valid() && IsSlot(c, s) && 0 <= s.blockPos < c.blockNum - 1
    requires 0 <= late < Begin(c, Next(c, s)) - Begin(c, s)
    ensures Covers(c, Next(c, s), Begin(c, s) + late + c.period)
  {
    SlotLength(c, s);
    SlotLength(c, Next(c, s));
    Distribute(s.blockPos, 1, c.period);
  }

  lemma LandsOnProposer(c: Config, s: Slot, late: int)
    requires c.Valid() && IsSlot(c, s) && s.blockPos == c.blockNum - 1
    requires 0 <= late < Begin(c, Next(c, s)) - Begin(c, s)
    ensures Covers(c, Landing(c, s, late), Begin(c, s) + late + Ahead(c, s))
  {
    SlotLength(c, s);
    SlotLength(c, NextBlockSlot(c, s));
    Distribute(s.pos, 1, PosTime(c));
    Distribute(s.term - 1, 1, TermTime(c));
    TermTimeSplit(c);
    assert s.pos == c.proposerNum - 1 ==> (s.pos + 1) * PosTime(c) == c.proposerNum * PosTime(c);
    assert s.blockPos * c.period == c.period * (c.blockNum - 1);
  }

  // ---------------------------------------------------------------- the block that fixed a term's validators

  /** What the search reads of a block: its timestamp and the term in its consensus storage, None
      when that cannot be parsed. */
  datatype TermBlock = TermBlock(timestamp: int, curTerm: Option<int>)

  type Heights = map<int, TermBlock>

  function GetTerm(chain: Heights, height: int): Option<int> {
    if height in chain then chain[height].curTerm else None
  }

  predicate Earlier(chain: Heights, height: int, term: int) {
    GetTerm(chain, height).Some? && GetTerm(chain, height).value < term
  }

  /** The specification: scan down from end for the first block of an earlier term, stopping at begin. */
  ghost function LastEarlier(chain: Heights, begin: int, end: int, term: int): int
    decreases end - begin
  {
    if end - 1 <= begin then begin
    else if Earlier(chain, end - 1, term) then end - 1
    else LastEarlier(chain, begin, end - 1, term)
  }

  lemma {:induction false} LastEarlierIs(chain: Heights, begin: int, end: int, term: int, r: int)
    requires begin <= r < end
    requires r == begin || Earlier(chain, r, term)
    requires forall h | r < h < end :: !Earlier(chain, h, term)
    ensures LastEarlier(chain, begin, end, term) == r
    decreases end - r
  {
    if r < end - 1 {
      LastEarlierIs(chain, begin, end - 1, term, r);
    }
  }

  lemma {:induction false} LastEarlierMeans(chain: Heights, begin: int, end: int, term: int)
    requires begin < end
    ensures var r := LastEarlier(chain, begin, end, term);
            && begin <= r < end && (r == begin || Earlier(chain, r, term))
            && forall h | r < h < end :: !Earlier(chain, h, term)
    decreases end - begin
  {
    if end - 1 > begin && !Earlier(chain, end - 1, term) {
      LastEarlierMeans(chain, begin, end - 1, term);
    }
  }

  /** All terms in the window are known; above begin they do not fall, and end has the given term. */
  ghost predicate Window(chain: Heights, begin: int, end: int, term: int) {
    && (forall h {:trigger GetTerm(chain, h)} | begin <= h <= end :: GetTerm(chain, h).Some?)
    && (forall h, k {:trigger GetTerm(chain, h), GetTerm(chain, k)} | begin < h <= k <= end ::
          GetTerm(chain, h).value <= GetTerm(chain, k).value)
    && (begin < end ==> GetTerm(chain, end).value == term)
  }

  /** Binary search for the last block of an earlier term. The term of begin itself does not matter. */
  method BinarySearch(chain: Heights, begin0: int, end0: int, term: int) returns (r: Option<int>)
    ensures Window(chain, begin0, end0, term) ==> r == Some(LastEarlier(chain, begin0, end0, term))
    ensures r.Some? && begin0 <= end0 ==> begin0 <= r.value <= end0
  {
    var begin, end := begin0, end0;
    while begin < end
      invariant begin0 <= begin && (begin0 <= end0 ==> begin <= end <= end0)
      invariant end0 < begin0 ==> begin == begin0 && end == end0
      invariant Window(chain, begin0, end0, term) ==> begin == begin0 || Earlier(chain, begin, term)
      invariant Window(chain, begin0, end0, term) ==>
                  forall h {:trigger Earlier(chain, h, term)} | begin0 < h && end <= h <= end0 ::
                    !Earlier(chain, h, term)
    {
      var mid := begin + (end - begin) / 2;
      var midTerm := GetTerm(chain, mid);
      if midTerm.None? {
        return None;
      }
      var nextMidTerm := GetTerm(chain, mid + 1);
      if nextMidTerm.None? {
        return None;
      }
      if midTerm.value < term && nextMidTerm.value == term {
        if Window(chain, begin0, end0, term) {
          LastEarlierIs(chain, begin0, end0, term, mid);
        }
        return Some(mid);
      }
      if midTerm.value < term {
        begin := mid + 1;
      } else {
        end := mid;
      }
    }
    if Window(chain, begin0, end0, term) && begin0 < end0 {
      LastEarlierIs(chain, begin0, end0, term, begin0);
    }
    return Some(begin);
  }

  /** A chain mined on schedule: every block above the start height lies in a block slot after the
      one of its parent and stores the term of its slot. */
  ghost predicate OnSchedule(c: Config, chain: Heights, height: int)
    requires c.Valid()
  {
    && c.startHeight <= height
    && (forall h {:trigger GetTerm(chain, h)} | c.startHeight <= h <= height :: GetTerm(chain, h).Some?)
    && (forall h {:trigger SlotAt(c, chain, h)} | c.startHeight < h <= height ::
          && h in chain && chain[h].timestamp >= c.initTimestamp
          && SlotAt(c, chain, h).blockPos >= 0 && GetTerm(chain, h) == Some(SlotAt(c, chain, h).term))
    && (forall h {:trigger FollowsParent(c, chain, h)} | c.startHeight + 1 < h <= height :: FollowsParent(c, chain, h))
  }

  ghost predicate FollowsParent(c: Config, chain: Heights, height: int)
    requires c.Valid()
  {
    Before(SlotAt(c, chain, height - 1), SlotAt(c, chain, height))
  }

  ghost function SlotAt(c: Config, chain: Heights, height: int): Slot
    requires c.Valid()
  {
    if height in chain then MinerScheduling(c, chain[height].timestamp) else Slot(0, 0, 0)
  }

  /** The height whose state fixes the validators of the block at the given height. The search starts
      no further back than the term can have blocks; on a chain mined on schedule this misses
      nothing: the result is that of a scan of the whole chain. */
  method FindTargetHeight(c: Config, chain: Heights, height: int) returns (r: Option<int>)
    requires c.Valid()
    ensures OnSchedule(c, chain, height) ==>
              r == Some(LastEarlier(chain, c.startHeight, height, SlotAt(c, chain, height).term))
    ensures height !in chain ==> r == None
  {
    if height !in chain {
      assert GetTerm(chain, height).None?;
      return None;
    }
    var s := MinerScheduling(c, chain[height].timestamp);
    var internal := s.pos * c.blockNum + s.blockPos;
    var begin := height - internal - 1;
    if begin <= c.startHeight {
      begin := c.startHeight;
    }
    r := BinarySearch(chain, begin, height, s.term);
    if OnSchedule(c, chain, height) {
      WindowCovers(c, chain, height, begin);
    }
  }

  /** The number of a block slot within its term. */
  ghost function Number(c: Config, s: Slot): int {
    s.pos * c.blockNum + s.blockPos
  }

  lemma NumberRises(c: Config, a: Slot, b: Slot)
    requires c.Valid() && IsSlot(c, a) && IsSlot(c, b) && a.term == b.term && Before(a, b) && b.blockPos >= 0
    ensures Number(c, a) < Number(c, b)
  {
    if a.pos < b.pos {
      MulAtLeast(a.pos + 1, b.pos, c.blockNum);
      Distribute(a.pos, 1, c.blockNum);
    }
  }

  /** Terms do not fall along the chain, and blocks of one term have rising slot numbers. */
  lemma {:induction false} SlotsAlong(c: Config, chain: Heights, height: int, h: int, k: int)
    requires c.Valid() && OnSchedule(c, chain, height) && c.startHeight < h <= k <= height
    ensures SlotAt(c, chain, h).term <= SlotAt(c, chain, k).term
    ensures SlotAt(c, chain, h).term == SlotAt(c, chain, k).term ==>
              k - h <= Number(c, SlotAt(c, chain, k)) - Number(c, SlotAt(c, chain, h))
    decreases k - h
  {
    hide MinerScheduling, Number;
    if h < k {
      SlotsAlong(c, chain, height, h, k - 1);
      var a, b := SlotAt(c, chain, k - 1), SlotAt(c, chain, k);
      assert FollowsParent(c, chain, k);
      SlotInRange(c, chain[k - 1].timestamp);
      SlotInRange(c, chain[k].timestamp);
      if a.term == b.term {
        NumberRises(c, a, b);
      }
    }
  }

  /** A block whose distance exceeds the slot number belongs to an earlier term. */
  lemma FarBlockEarlier(c: Config, chain: Heights, height: int, h: int)
    requires c.Valid() && OnSchedule(c, chain, height) && c.startHeight < h < height
    requires height - h > Number(c, SlotAt(c, chain, height))
    ensures Earlier(chain, h, SlotAt(c, chain, height).term)
  {
    SlotsAlong(c, chain, height, h, height);
    var a := SlotAt(c, chain, h);
    SlotInRange(c, chain[h].timestamp);
    MulAtLeast(0, a.pos, c.blockNum);
  }

  lemma WindowCovers(c: Config, chain: Heights, height: int, begin: int)
    requires c.Valid() && OnSchedule(c, chain, height) && height in chain
    requires var b := height - Number(c, SlotAt(c, chain, height)) - 1;
             begin == if b <= c.startHeight then c.startHeight else b
    ensures var term := SlotAt(c, chain, height).term;
            && Window(chain, begin, height, term)
            && LastEarlier(chain, begin, height, term) == LastEarlier(chain, c.startHeight, height, term)
  {
    var s := SlotAt(c, chain, height);
    BeginNotAbove(c, chain, height, begin);
    forall h, k | begin < h <= k <= height
      ensures GetTerm(chain, h).value <= GetTerm(chain, k).value
    {
      SlotsAlong(c, chain, height, h, k);
    }
    if c.startHeight < begin {
      FarBlockEarlier(c, chain, height, begin);
      LastEarlierMeans(chain, begin, height, s.term);
      LastEarlierIs(chain, c.startHeight, height, s.term, LastEarlier(chain, begin, height, s.term));
    }
  }

  lemma BeginNotAbove(c: Config, chain: Heights, height: int, begin: int)
    requires c.Valid() && OnSchedule(c, chain, height) && height in chain
    requires var b := height - Number(c, SlotAt(c, chain, height)) - 1;
             begin == if b <= c.startHeight then c.startHeight else b
    ensures begin <= height && (c.startHeight < begin ==> begin < height)
  {
    var s := SlotAt(c, chain, height);
    if c.startHeight < height {
      SlotInRange(c, chain[height].timestamp);
      MulAtLeast(0, s.pos, c.blockNum);
    } else {
      NumberAtLeast(c, chain[height].timestamp);
    }
  }

  lemma NumberAtLeast(c: Config, timestamp: int)
    requires c.Valid()
    ensures Number(c, MinerScheduling(c, timestamp)) >= -1
  {
    if timestamp >= c.initTimestamp {
      SlotInRange(c, timestamp);
      MulAtLeast(0, MinerScheduling(c, timestamp).pos, c.blockNum);
    }
  }

  // ---------------------------------------------------------------- arithmetic

  lemma Distribute(a: int, b: int, m: int)
    ensures (a + b) * m == a * m + b * m
  {
  }

  lemma MulAtLeast(a: int, b: int, m: int)
    requires a <= b && m >= 0
    ensures a * m <= b * m
  {
  }

  lemma DivBounds(a: int, d: int)
    requires d > 0
    ensures a / d * d <= a < (a / d + 1) * d && (a >= 0 ==> a / d >= 0)
  {
  }

  lemma QuotientBelow(a: int, d: int, n: int)
    requires d > 0 && a < n * d
    ensures a / d < n
  {
  }

  lemma DivMonotone(a: int, b: int, d: int)
    requires d > 0 && a <= b
    ensures a / d <= b / d
  {
    DivBounds(b, d);
    QuotientBelow(a, d, b / d + 1);
  }

  lemma Shift(timestamp: int, d: int)
    ensures (timestamp + d * MILLISECOND) / MILLISECOND == timestamp / MILLISECOND + d
  {
  }
}

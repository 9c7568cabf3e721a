/** What every reachable state of the protocol satisfies, and why every step keeps it. */
module Invariant {
  import opened Bits
  import opened Availability
  import opened Wiring
  import opened Protocol

  // --- the invariant ---------------------------------------------------------------------------

  ghost predicate Shape(cfg: Config, s: State) {
    && |s.slots| == cfg.capacity
    && (cfg.multi ==> cfg.capacity == 64 * |s.words|) && AreWords(s.words)
    && |s.consumers| == |cfg.graph.barriers| && |s.gates| == |s.gatePeaks| == cfg.gates
    && (forall g :: 0 <= g < |s.gates| ==> s.gates[g] <= s.gatePeaks[g])
    && s.claimed >= -1 && |s.log| == |s.owner| == s.claimed + 1
    && (!cfg.multi ==> |s.producers| == 1)
  }

  /** Nobody but its owner holds a sequence: the claims tile `0..claimed`. */
  ghost predicate Owned(s: State) {
    && (forall q :: 0 <= q < |s.owner| ==> s.owner[q] < |s.producers|)
    && (forall p, q {:trigger Holds(s.producers[p], q)} :: 0 <= p < |s.producers| && Holds(s.producers[p], q) ==> 0 <= q < |s.owner| && s.owner[q] == p)
  }

  /** `limit` is at most one ring ahead of every cursor the producers watch. */
  ghost predicate BehindRear(cfg: Config, s: State, limit: int) {
    forall t :: t in cfg.graph.rear ==> t < |s.consumers| && limit <= s.consumers[t].cursor + cfg.capacity
  }

  /** What a single producer knows besides: its claims are the cursor's only changes. */
  ghost predicate SingleOk(cfg: Config, s: State, x: Producer) {
    match x.pc
    case Comparing(_, current) => current == s.claimed == s.published
    case ReadingRear(_, current, _, _) => current == s.claimed == s.published
    case Claiming(_, current) => current == s.claimed == s.published
    case Writing(lower, upper) => upper == s.claimed && s.published == lower - 1
    case Publishing(next, upper) => upper == s.claimed && s.published == next - 1
    case _ => s.published == s.claimed
  }

  ghost predicate ProducerOk(cfg: Config, s: State, x: Producer) {
    && BehindRear(cfg, s, x.clear)
    && (!cfg.multi ==> SingleOk(cfg, s, x))
    && match x.pc
       case Comparing(_, current) => -1 <= current <= s.claimed
       case ReadingRear(_, current, read, least) =>
         && -1 <= current <= s.claimed && read <= |cfg.graph.rear|
         && forall j :: 0 <= j < read ==>
              cfg.graph.rear[j] < |s.consumers| && least <= s.consumers[cfg.graph.rear[j]].cursor
       case Claiming(n, current) => -1 <= current <= s.claimed && current + n <= x.clear
       case Writing(lower, upper) => 0 <= lower <= upper + 1 <= s.claimed + 1
       case Publishing(next, upper) => 0 <= next <= upper + 1 <= s.claimed + 1
       case _ => true
  }

  ghost predicate ConsumerOk(cfg: Config, s: State, b: Barrier, x: Consumer) {
    && -1 <= x.cursor <= Horizon(x) <= s.claimed
    && (forall q :: 0 <= q <= Horizon(x) ==> Published(s, q))
    && (match b
        case Producers => !x.pc.ReadingMin?
        case Stage(cursors, gates) =>
          && !x.pc.Scanning? && !x.pc.LoadingPublished?
          && (forall d :: d in cursors ==> d < |s.consumers| && Horizon(x) <= s.consumers[d].cursor)
          && (forall g :: g in gates ==> g < |s.gatePeaks| && Horizon(x) <= s.gatePeaks[g])
          && (x.pc.ReadingMin? ==>
                && x.pc.read <= |cursors| + |gates|
                && (forall j :: 0 <= j < x.pc.read && j < |cursors| ==>
                      cursors[j] < |s.consumers| && x.pc.least <= s.consumers[cursors[j]].cursor)
                && (forall j :: 0 <= j < x.pc.read - |cursors| ==>
                      gates[j] < |s.gatePeaks| && x.pc.least <= s.gatePeaks[gates[j]])))
    && match x.pc
       case Scanning(_, sequence) =>
         && cfg.multi && x.cursor + 1 <= sequence <= x.cursor + 1 + cfg.capacity
         && forall q :: 0 <= q < sequence ==> Published(s, q)
       case LoadingPublished(_) => !cfg.multi
       case Handling(next, available) => x.cursor + 1 <= next <= available + 1
       case _ => true
  }

  /** The bits of the last ring of sequences show exactly which of them are published. Sequences
      below zero count as published: that is what a bitmap of all ones says. */
  ghost predicate BitmapOk(cfg: Config, s: State)
    requires cfg.multi ==> 0 < cfg.capacity == 64 * |s.words|
  {
    cfg.multi ==>
      forall q :: s.claimed - cfg.capacity < q <= s.claimed ==>
        (ReadsPublished(s.words, cfg.capacity, q) <==> q < 0 || Published(s, q))
  }

  ghost predicate SlotsOk(cfg: Config, s: State)
    requires 0 < cfg.capacity == |s.slots| && |s.log| == s.claimed + 1
  {
    forall q :: 0 <= q <= s.claimed && s.claimed - cfg.capacity < q ==> s.slots[q % cfg.capacity] == s.log[q]
  }

  ghost predicate Inv(cfg: Config, s: State) {
    && ValidConfig(cfg)
    && Shape(cfg, s)
    && Owned(s)
    && BehindRear(cfg, s, s.claimed)
    && (forall p :: 0 <= p < |s.producers| ==> ProducerOk(cfg, s, s.producers[p]))
    && (forall c :: 0 <= c < |s.consumers| ==> ConsumerOk(cfg, s, cfg.graph.barriers[c], s.consumers[c]))
    && BitmapOk(cfg, s)
    && SlotsOk(cfg, s)
  }

  // --- consequences ----------------------------------------------------------------------------

  /** No producer laps any consumer, at whatever stage: every claim is at most one ring ahead. */
  lemma NobodyIsLapped(cfg: Config, s: State, c: nat)
    requires Inv(cfg, s) && c < |s.consumers|
    ensures s.claimed <= s.consumers[c].cursor + cfg.capacity
  {
    var stage: seq<nat>, last: nat :| Layered(cfg.graph, stage, last);
    var at := seq(|s.consumers|, i requires 0 <= i < |s.consumers| => s.consumers[i].cursor);
    forall i, d | 0 <= i < |at| && 0 <= d < |at| && cfg.graph.barriers[i].Stage? && d in cfg.graph.barriers[i].cursors
      ensures at[i] <= at[d]
    {
      assert ConsumerOk(cfg, s, cfg.graph.barriers[i], s.consumers[i]);
    }
    var t := LastStageIsSlowest(cfg.graph, stage, last, at, c);
  }

  /** Everything more than a ring behind the last claim is published: some consumer has read it. */
  lemma OldIsPublished(cfg: Config, s: State, q: int)
    requires Inv(cfg, s) && 0 <= q <= s.claimed - cfg.capacity
    ensures Published(s, q)
  {
    var stage: seq<nat>, last: nat :| Layered(cfg.graph, stage, last);
    var t := cfg.graph.rear[0];
    assert t in cfg.graph.rear;
    assert ConsumerOk(cfg, s, cfg.graph.barriers[t], s.consumers[t]);
  }

  /** For the next ring of sequences after a consumer's cursor, the bitmap is exact. */
  lemma BitmapIsExact(cfg: Config, s: State, c: nat, q: int)
    requires Inv(cfg, s) && cfg.multi && c < |s.consumers|
    requires s.consumers[c].cursor < q <= s.consumers[c].cursor + cfg.capacity
    ensures ReadsPublished(s.words, cfg.capacity, q) <==> Published(s, q)
  {
    NobodyIsLapped(cfg, s, c);
    var x := s.consumers[c];
    assert ConsumerOk(cfg, s, cfg.graph.barriers[c], x);
    if q > s.claimed {
      NextRound(s.words, cfg.capacity, q - cfg.capacity);
      assert q - cfg.capacity >= 0 ==> Published(s, q - cfg.capacity);
    }
  }

  /** Nothing that consumers rely on is taken back between `s` and `t`. */
  ghost predicate Advances(s: State, t: State) {
    && |s.consumers| == |t.consumers| && |s.gatePeaks| == |t.gatePeaks|
    && s.claimed <= t.claimed
    && (forall c :: 0 <= c < |s.consumers| ==> s.consumers[c].cursor <= t.consumers[c].cursor)
    && (forall g :: 0 <= g < |s.gatePeaks| ==> s.gatePeaks[g] <= t.gatePeaks[g])
    && (forall q :: Published(s, q) ==> Published(t, q))
  }

  lemma RearAdvances(cfg: Config, s: State, t: State, limit: int)
    requires Advances(s, t) && BehindRear(cfg, s, limit)
    ensures BehindRear(cfg, t, limit)
  {
  }

  lemma ConsumerAdvances(cfg: Config, s: State, t: State, b: Barrier, x: Consumer)
    requires Advances(s, t) && ConsumerOk(cfg, s, b, x)
    ensures ConsumerOk(cfg, t, b, x)
  {
  }

  lemma ProducerAdvances(cfg: Config, s: State, t: State, x: Producer)
    requires Advances(s, t) && ProducerOk(cfg, s, x)
    requires cfg.multi || (s.claimed == t.claimed && s.published == t.published)
    ensures ProducerOk(cfg, t, x)
  {
    RearAdvances(cfg, s, t, x.clear);
  }

  /** A bitmap of all ones shows the round before the first as published, and nothing else. */
  lemma AllOnesShowNothing(words: seq<nat>, size: nat, q: int)
    requires 0 < size == 64 * |words| && -1 - size < q <= -1
    requires forall i :: 0 <= i < |words| ==> words[i] == Not(0)
    ensures ReadsPublished(words, size, q)
  {
    NotBit(0, q % size % 64);
    ZeroHasNoBits(q % size % 64);
    DivideUnique(q, size, -1, q + size);
  }

  lemma InitialConsumers(cfg: Config, s: State)
    requires ValidConfig(cfg) && IsInitial(cfg, s)
    ensures forall c :: 0 <= c < |s.consumers| ==> ConsumerOk(cfg, s, cfg.graph.barriers[c], s.consumers[c])
  {
    var stage: seq<nat>, last: nat :| Layered(cfg.graph, stage, last);
    forall c | 0 <= c < |s.consumers| ensures ConsumerOk(cfg, s, cfg.graph.barriers[c], s.consumers[c]) {
      assert WaitsForStageBelow(cfg.graph.barriers[c], stage[c], stage);
      var b := cfg.graph.barriers[c];
      if b.Stage? {
        forall g | g in b.gates ensures g < |s.gatePeaks| {
          var i :| 0 <= i < |b.gates| && b.gates[i] == g;
        }
      }
    }
  }

  lemma InitEstablishes(cfg: Config, s: State)
    requires ValidConfig(cfg) && IsInitial(cfg, s)
    ensures Inv(cfg, s)
  {
    assert forall p, q :: 0 <= p < |s.producers| ==> !Holds(s.producers[p], q);
    NotBit(0, 0);
    InitialConsumers(cfg, s);
    if cfg.multi {
      WholeWords(cfg.capacity);
      forall q | -1 - cfg.capacity < q <= -1 ensures ReadsPublished(s.words, cfg.capacity, q) {
        AllOnesShowNothing(s.words, cfg.capacity, q);
      }
    }
    var stage: seq<nat>, last: nat :| Layered(cfg.graph, stage, last);
  }
}

/**
 The digest-chained event stream (`src/events.rs`, `EventChain`; the envelope checks of
 `crates/o7-run/src/replay.rs` and `reduce.rs`). The digest of an event is a function of
 everything in it except the digest itself; nothing else is assumed of it here.
 */
module Journal {
  import opened Base
  import R = Reducer

  datatype Header = Header(
    eventId: string, schema: nat, runId: string, sequence: nat, prev: Digest, timestamp: int, kind: R.Kind)

  datatype Event = Event(header: Header, digest: Digest)

  datatype PushError = SequenceOverflow

  const SCHEMA_VERSION: nat := 1
  const GENESIS: Digest := ZEROS + ZEROS + ZEROS + ZEROS
  const ZEROS: Bytes := [48, 48, 48, 48, 48, 48, 48, 48, 48, 48, 48, 48, 48, 48, 48, 48]
  const MAX_SEQUENCE: nat := 0xFFFF_FFFF_FFFF_FFFF

  function LastDigest(events: seq<Event>): Digest {
    if events == [] then GENESIS else events[|events| - 1].digest
  }

  /** Contiguous from zero, linked from genesis, every digest recomputable, one run. */
  ghost predicate Chained(dig: Header -> Digest, runId: string, events: seq<Event>) {
    forall i :: 0 <= i < |events| ==>
      && events[i].header.runId == runId
      && events[i].header.sequence == i
      && events[i].header.prev == LastDigest(events[..i])
      && events[i].digest == dig(events[i].header)
  }

  function Kinds(events: seq<Event>): (ks: seq<R.Kind>)
    ensures |ks| == |events| && forall i :: 0 <= i < |ks| ==> ks[i] == events[i].header.kind
  {
    seq(|events|, i requires 0 <= i < |events| => events[i].header.kind)
  }

  class EventChain {
    const runId: string
    const dig: Header -> Digest
    var seqNo: nat
    var prev: Digest
    var out: seq<Event>

    ghost predicate Valid()
      reads this
    {
      Chained(dig, runId, out) && seqNo == |out| <= MAX_SEQUENCE && prev == LastDigest(out)
    }

    constructor (runId: string, dig: Header -> Digest)
      ensures Valid() && out == [] && this.runId == runId && this.dig == dig
    {
      this.runId, this.dig := runId, dig;
      seqNo, prev, out := 0, GENESIS, [];
    }

    /**
     Mint one event. A refusal (the sequence counter is exhausted) keeps every event
     already minted, but the link has moved on, so the chain cannot be extended after it.
     */
    method Push(eventId: string, now: int, kind: R.Kind) returns (r: Result<Event, PushError>)
      requires Valid()
      modifies this
      ensures r.Err? <==> old(seqNo) == MAX_SEQUENCE
      ensures r.Err? ==> out == old(out) && seqNo == old(seqNo)
      ensures r.Ok? ==> Valid() && out == old(out) + [r.value] && r.value.header.kind == kind
      ensures r.Ok? ==> r.value.header.eventId == eventId && r.value.header.timestamp == now && r.value.header.schema == 1
    {
      var header := Header(eventId, SCHEMA_VERSION, runId, seqNo, prev, now, kind);
      var event := Event(header, dig(header));
      prev := event.digest;
      if seqNo == MAX_SEQUENCE {
        return Err(SequenceOverflow);
      }
      seqNo := seqNo + 1;
      var before := out;
      out := out + [event];
      ChainedSnoc(dig, runId, before, event);
      r := Ok(event);
    }
  }

  lemma ChainedSnoc(dig: Header -> Digest, runId: string, events: seq<Event>, e: Event)
    requires Chained(dig, runId, events)
    requires e.header.runId == runId && e.header.sequence == |events| && e.header.prev == LastDigest(events)
    requires e.digest == dig(e.header)
    ensures Chained(dig, runId, events + [e])
  {
    var all := events + [e];
    forall i | 0 <= i < |all| ensures all[i].header.prev == LastDigest(all[..i]) {
      if i < |events| {
        assert all[..i] == events[..i];
      } else {
        assert all[..i] == events;
      }
    }
  }

  lemma ChainedPrefix(dig: Header -> Digest, runId: string, events: seq<Event>, n: nat)
    requires n <= |events| && Chained(dig, runId, events)
    ensures Chained(dig, runId, events[..n])
  {
    forall i | 0 <= i < n ensures events[..n][i].header.prev == LastDigest(events[..n][..i]) {
      assert events[..n][..i] == events[..i];
    }
  }

  /**
   The last digest fixes the whole history: two chains that end in the same digest are
   equal event by event, lengths and run ids included.
   */
  lemma {:induction false} DigestFixesHistory(
    dig: Header -> Digest, runA: string, a: seq<Event>, runB: string, b: seq<Event>)
    requires CollisionFree(dig) && Chained(dig, runA, a) && Chained(dig, runB, b)
    requires a != [] && b != [] && LastDigest(a) == LastDigest(b)
    ensures a == b && runA == runB
    decreases |a|
  {
    hide Chained, CollisionFree, LastDigest;
    SameLast(dig, runA, a, runB, b);
    var n := |a| - 1;
    if n > 0 {
      ChainedPrefix(dig, runA, a, n);
      ChainedPrefix(dig, runB, b, n);
      DigestFixesHistory(dig, runA, a[..n], runB, b[..n]);
    }
    assert a == a[..n] + [a[n]] && b == b[..n] + [b[n]];
  }

  /** Equal last digests mean equal last events, at equal positions, with equal histories to compare next. */
  lemma SameLast(dig: Header -> Digest, runA: string, a: seq<Event>, runB: string, b: seq<Event>)
    requires CollisionFree(dig) && Chained(dig, runA, a) && Chained(dig, runB, b)
    requires a != [] && b != [] && LastDigest(a) == LastDigest(b)
    ensures |a| == |b| && runA == runB && a[|a| - 1] == b[|b| - 1]
    ensures LastDigest(a[..|a| - 1]) == LastDigest(b[..|b| - 1])
  {
    var x, y := a[|a| - 1], b[|b| - 1];
    assert dig(x.header) == dig(y.header);
    hide CollisionFree;
  }
}

/** The values that cross from the kernel's traffic map to the daemon. */
module Sampling {

  type Tgid = nat

  datatype Direction = Rx | Tx

  datatype Counters = Counters(rx: nat, tx: nat) {
    function Of(d: Direction): nat {
      match d
      case Rx => rx
      case Tx => tx
    }

    function Plus(d: Direction, bytes: nat): Counters {
      match d
      case Rx => this.(rx := rx + bytes)
      case Tx => this.(tx := tx + bytes)
    }
  }

  const Zero := Counters(0, 0)

  /** One element of the traffic map. The id names this incarnation of the element: a reference
      obtained by a lookup designates the element looked up, not a later one under the same key. */
  datatype Entry = Entry(counters: Counters, comm: string, id: nat)

  datatype RawSample = RawSample(tgid: Tgid, counters: Counters, comm: string)

  /** QHash::value: a missing key reads as zero counters. */
  function ValueOf(m: map<Tgid, Counters>, t: Tgid): Counters {
    if t in m then m[t] else Zero
  }

  /** What one direction contributed since the previous tick. A counter that went backwards was
      recreated, so its current value is the delta. */
  function Delta(previous: nat, now: nat): nat {
    if now >= previous then now - previous else now
  }

  function DeltaOf(previous: map<Tgid, Counters>, s: RawSample, d: Direction): nat {
    Delta(ValueOf(previous, s.tgid).Of(d), s.counters.Of(d))
  }

  predicate DistinctTgids(samples: seq<RawSample>) {
    forall i, j :: 0 <= i < j < |samples| ==> samples[i].tgid != samples[j].tgid
  }

  /** The next baseline: m_previous after the loop over the samples. */
  function Baseline(samples: seq<RawSample>): map<Tgid, Counters> {
    if samples == [] then map[]
    else
      var last := samples[|samples| - 1];
      Baseline(samples[..|samples| - 1])[last.tgid := last.counters]
  }

  /** A sample list is a snapshot of the map when it lists every element exactly once. */
  ghost predicate Snapshots(samples: seq<RawSample>, entries: map<Tgid, Entry>) {
    && DistinctTgids(samples)
    && (forall s :: s in samples ==> (
          && s.tgid in entries
          && s.counters == entries[s.tgid].counters
          && s.comm == entries[s.tgid].comm))
    && (forall t :: t in entries ==> exists s :: s in samples && s.tgid == t)
  }

  function CountersOf(entries: map<Tgid, Entry>): map<Tgid, Counters> {
    map t | t in entries :: entries[t].counters
  }

  lemma {:induction false} BaselineLookup(samples: seq<RawSample>)
    requires DistinctTgids(samples)
    ensures forall t :: t in Baseline(samples) <==> exists i :: 0 <= i < |samples| && samples[i].tgid == t
    ensures forall i :: 0 <= i < |samples| ==>
              samples[i].tgid in Baseline(samples) && Baseline(samples)[samples[i].tgid] == samples[i].counters
  {
    if samples != [] {
      var front := samples[..|samples| - 1];
      BaselineLookup(front);
      forall t ensures t in Baseline(samples) <==> exists i :: 0 <= i < |samples| && samples[i].tgid == t {
        if t in Baseline(front) {
          var i :| 0 <= i < |front| && front[i].tgid == t;
          assert samples[i].tgid == t;
        }
        if exists i :: 0 <= i < |samples| && samples[i].tgid == t {
          var i :| 0 <= i < |samples| && samples[i].tgid == t;
          if i < |front| {
            assert front[i].tgid == t;
          }
        }
      }
      forall i | 0 <= i < |samples|
        ensures samples[i].tgid in Baseline(samples) && Baseline(samples)[samples[i].tgid] == samples[i].counters
      {
        if i < |front| {
          assert front[i] == samples[i];
        }
      }
    }
  }

  /** After a tick over a snapshot of the map, the baseline is the map's own counters. */
  lemma {:induction false} BaselineOfSnapshot(samples: seq<RawSample>, entries: map<Tgid, Entry>)
    requires Snapshots(samples, entries)
    ensures Baseline(samples) == CountersOf(entries)
  {
    BaselineLookup(samples);
    forall t ensures t in Baseline(samples) <==> t in entries {
      if t in entries {
        var s :| s in samples && s.tgid == t;
        var i :| 0 <= i < |samples| && samples[i] == s;
        assert samples[i].tgid == t;
      }
    }
    forall t | t in Baseline(samples) ensures Baseline(samples)[t] == entries[t].counters {
      var i :| 0 <= i < |samples| && samples[i].tgid == t;
      assert samples[i] in samples;
    }
  }
}

/** The quorum rule and its announcements. */
module ClusterStatus {
  import opened Sequences

  datatype Health = Unannounced | ClusterUp | ClusterDown
  datatype Completeness = Untold | ClusterComplete | ClusterIncomplete

  datatype Announcement =
    | HealthIs(health: Health, neighbors: nat)
    | CompletenessIs(complete: Completeness, neighbors: nat)

  function Quorum(total: nat): nat { total / 2 + 1 }

  /** `live` counts the other snapcommunicators we are connected with. */
  function HealthOf(live: nat, total: nat): Health { if live + 1 >= Quorum(total) then ClusterUp else ClusterDown }

  function CompletenessOf(live: nat, total: nat): Completeness {
    if live + 1 == total then ClusterComplete else ClusterIncomplete
  }

  datatype Status = Status(health: Health, complete: Completeness, totalSent: nat)

  /** Both rules of one check: announce what changed, or everything to who asked. */
  function Check(s: Status, live: nat, total: nat, asked: bool): (Status, seq<Announcement>) {
    var health, complete := HealthOf(live, total), CompletenessOf(live, total);
    var first := if health != s.health || s.totalSent != total || asked then [HealthIs(health, total)] else [];
    var second :=
      if complete != s.complete || s.totalSent != total || asked then [CompletenessIs(complete, total)] else [];
    (if asked then s else Status(health, complete, total), first + second)
  }

  class Monitor {
    var health: Health
    var complete: Completeness
    var totalSent: nat

    function State(): Status
      reads this
    {
      Status(health, complete, totalSent)
    }

    constructor ()
      ensures State() == Status(Unannounced, Untold, 0)
    {
      health, complete, totalSent := Unannounced, Untold, 0;
    }

    method CheckStatus(live: nat, total: nat, asked: bool) returns (sent: seq<Announcement>)
      modifies this
      ensures (State(), sent) == Check(old(State()), live, total, asked)
    {
      sent := [];
      var count := live + 1;
      var quorum := total / 2 + 1;
      var newStatus := if count >= quorum then ClusterUp else ClusterDown;
      if newStatus != health || totalSent != total || asked {
        if !asked {
          health := newStatus;
        }
        sent := [HealthIs(newStatus, total)];
      }
      var newComplete := if count == total then ClusterComplete else ClusterIncomplete;
      if newComplete != complete || totalSent != total || asked {
        if !asked {
          complete := newComplete;
        }
        sent := sent + [CompletenessIs(newComplete, total)];
      }
      if !asked {
        totalSent := total;
      }
      assert sent == Check(old(State()), live, total, asked).1;
    }
  }

  datatype Reading = Reading(live: nat, total: nat, asked: bool)

  function StatusAfter(readings: seq<Reading>): (Status, seq<Announcement>) {
    if readings == [] then (Status(Unannounced, Untold, 0), [])
    else
      var (s, told) := StatusAfter(readings[..|readings| - 1]);
      var r := readings[|readings| - 1];
      var (s', sent) := Check(s, r.live, r.total, r.asked);
      (s', told + if r.asked then [] else sent)
  }

  function LastHealth(told: seq<Announcement>): Announcement {
    if told == [] then HealthIs(Unannounced, 0)
    else if told[|told| - 1].HealthIs? then told[|told| - 1]
    else LastHealth(told[..|told| - 1])
  }

  function LastCompleteness(told: seq<Announcement>): Announcement {
    if told == [] then CompletenessIs(Untold, 0)
    else if told[|told| - 1].CompletenessIs? then told[|told| - 1]
    else LastCompleteness(told[..|told| - 1])
  }

  /** What the services were last told is the current status, although only changes are announced. */
  lemma {:induction false} AnnouncedIsCurrent(readings: seq<Reading>)
    ensures var (s, told) := StatusAfter(readings);
            && LastHealth(told) == HealthIs(s.health, s.totalSent)
            && LastCompleteness(told) == CompletenessIs(s.complete, s.totalSent)
  {
    if readings != [] {
      AnnouncedIsCurrent(readings[..|readings| - 1]);
      var (s, told) := StatusAfter(readings[..|readings| - 1]);
      var r := readings[|readings| - 1];
      var sent := if r.asked then [] else Check(s, r.live, r.total, r.asked).1;
      assert told + [] == told;
      if |sent| == 1 {
        assert (told + sent)[..|told|] == told;
      } else if |sent| == 2 {
        assert (told + sent)[..|told| + 1] == told + [sent[0]];
        assert (told + [sent[0]])[..|told|] == told;
      }
    }
  }

  /** One check, written out: the cluster is up when more than half of all computers are connected, complete when
      all are; the status and the size are remembered unless somebody asked, who is told everything; otherwise each
      of the two is announced when it, or the size, changed. */
  lemma CheckExactly(s: Status, live: nat, total: nat, asked: bool)
    ensures var (t, told) := Check(s, live, total, asked);
            var health := if 2 * (live + 1) > total then ClusterUp else ClusterDown;
            var complete := if live + 1 == total then ClusterComplete else ClusterIncomplete;
            && t == (if asked then s else Status(health, complete, total))
            && (HealthIs(health, total) in told <==> asked || health != s.health || total != s.totalSent)
            && (CompletenessIs(complete, total) in told <==> asked || complete != s.complete || total != s.totalSent)
            && (forall i :: 0 <= i < |told| ==> told[i] == HealthIs(health, total)
                                                || told[i] == CompletenessIs(complete, total))
            && (forall i, j :: 0 <= i < j < |told| ==> told[i].HealthIs? && told[j].CompletenessIs?)
  {
    var (t, told) := Check(s, live, total, asked);
    assert 2 * (live + 1) > total <==> live + 1 >= total / 2 + 1;
    assert forall i :: 0 <= i < |told| ==> told[i] in told;
  }

  /** A complete cluster is up, whatever its size. */
  lemma CompleteIsUp(live: nat, total: nat)
    ensures CompletenessOf(live, total) == ClusterComplete ==> HealthOf(live, total) == ClusterUp
  {
  }

  /** No split cluster: two disjoint sides of a partition, none of whose nodes counts more computers than
      its side has, never both announce CLUSTERUP, whatever they announced before. */
  lemma NoSplitCluster<T>(all: set<T>, a: set<T>, b: set<T>, liveA: nat, liveB: nat, s: Status, t: Status)
    requires a <= all && b <= all && a !! b && liveA + 1 <= |a| && liveB + 1 <= |b|
    ensures !(Check(s, liveA, |all|, false).0.health == ClusterUp
              && Check(t, liveB, |all|, false).0.health == ClusterUp)
    ensures liveA + 1 == |all| ==> b == {}
  {
    SubsetSize(a + b, all);
    assert |a + b| == |a| + |b|;
  }
}

// The event stream of one simulation run.
module Events {
  import opened Basics

  datatype Via = Lidar | Direct | Relay

  datatype BrakeSource = BySight | ByRadio

  // What the modem reported about one radio hop.
  datatype HopReport = HopReport(snr: real, frames: int, retries: int, verified: bool)

  datatype Fact =
    | Trusts(a: Id, b: Id)
    | Observed(car: Id, hazard: Id, distance: real)
    | BlindTo(car: Id, hazard: Id, reason: string, distance: real)
    | Heard(receiver: Id, sender: Id, hazard: Id, report: HopReport, relayed: bool)
    | RelayedBy(relay: Id, hazard: Id, source: Id, dest: Id)
    | AwareOf(car: Id, hazard: Id, via: Via, path: seq<Id>, hops: nat)
    | BrakedFor(car: Id, hazard: Id, distance: real, cause: BrakeSource)
    | UnawareRisk(car: Id, hazard: Id, distance: real)

  datatype GraphEvent = GraphEvent(t: real, tick: nat, fact: Fact)

  // The part of a fact that identifies it: two events with the same key are the same fact, and
  // become the same edge of the graph.
  datatype Key =
    | KTrusts(a: Id, b: Id)
    | KObserved(car: Id, hazard: Id)
    | KBlind(car: Id, hazard: Id)
    | KHeard(sender: Id, receiver: Id, hazard: Id)
    | KRelayed(relay: Id, hazard: Id, dest: Id)
    | KAware(car: Id, hazard: Id)
    | KBraked(car: Id, hazard: Id)
    | KRisk(car: Id, hazard: Id)

  function KeyOf(f: Fact): Key {
    match f
    case Trusts(a, b) => KTrusts(a, b)
    case Observed(c, h, _) => KObserved(c, h)
    case BlindTo(c, h, _, _) => KBlind(c, h)
    case Heard(r, s, h, _, _) => KHeard(s, r, h)
    case RelayedBy(m, h, _, d) => KRelayed(m, h, d)
    case AwareOf(c, h, _, _, _) => KAware(c, h)
    case BrakedFor(c, h, _, _) => KBraked(c, h)
    case UnawareRisk(c, h, _) => KRisk(c, h)
  }

  // Trust pairs come from the caller and a risk is reported on every tick it lasts; everything
  // else is meant to be reported once.
  predicate Repeatable(k: Key) { k.KTrusts? || k.KRisk? }

  ghost function KeysOf(log: seq<GraphEvent>): set<Key> {
    set e | e in log :: KeyOf(e.fact)
  }

  lemma KeysOfAppend(log: seq<GraphEvent>, e: GraphEvent)
    ensures KeysOf(log + [e]) == KeysOf(log) + {KeyOf(e.fact)}
  {
    var l := log + [e];
    forall k | k in KeysOf(log) + {KeyOf(e.fact)} ensures k in KeysOf(l) {
      if k == KeyOf(e.fact) {
        assert e in l;
      } else {
        var d :| d in log && KeyOf(d.fact) == k;
        assert d in l;
      }
    }
  }

  lemma KeyAt(log: seq<GraphEvent>, k: Key) returns (i: nat)
    requires k in KeysOf(log)
    ensures i < |log| && KeyOf(log[i].fact) == k
  {
    var e :| e in log && KeyOf(e.fact) == k;
    i :| i < |log| && log[i] == e;
  }
}

/** Replaying an audit log: grouping by correlation id, then sorting each group into seven buckets. */
module AuditReplay {
  import opened Core
  import opened AuditRecord

  datatype Bucket = Requests | States | Decisions | Enforcement | Revocations | Fallbacks | Diagnostics

  function BucketOf(t: EventType): Bucket {
    match t
    case CapabilityRequested => Requests
    case NetworkStateAsserted => States
    case CapabilityAllowed => Decisions
    case CapabilityDenied => Decisions
    case CapabilityDegraded => Decisions
    case CommandAllowed => Enforcement
    case CommandRejected => Enforcement
    case LeaseRevoked => Revocations
    case RevocationRejected => Revocations
    case FallbackDeclared => Fallbacks
    case DemoSetup => Diagnostics
    case Diagnostic => Diagnostics
  }

  datatype ReplayItem = ReplayItem(
    auditId: string, eventType: EventType, actorId: string, stateRefs: seq<string>, relatedMessageIds: seq<string>)

  function ItemOf(e: Event): ReplayItem {
    ReplayItem(e.auditId, e.eventType, e.actorId, e.stateRefs, e.relatedMessageIds)
  }

  datatype CorrelationReplay = CorrelationReplay(
    correlationId: string, requests: seq<ReplayItem>, states: seq<ReplayItem>, decisions: seq<ReplayItem>,
    enforcement: seq<ReplayItem>, revocations: seq<ReplayItem>, fallbacks: seq<ReplayItem>,
    diagnostics: seq<ReplayItem>)

  function At(r: CorrelationReplay, b: Bucket): seq<ReplayItem> {
    match b
    case Requests => r.requests
    case States => r.states
    case Decisions => r.decisions
    case Enforcement => r.enforcement
    case Revocations => r.revocations
    case Fallbacks => r.fallbacks
    case Diagnostics => r.diagnostics
  }

  // ------------------------------------------------------------- what replay should give

  ghost function Correlations(events: seq<Event>): set<string> {
    set i | 0 <= i < |events| :: events[i].correlationId
  }

  /** The events of one correlation, in log order. */
  function Group(events: seq<Event>, c: string): seq<Event> {
    if events == [] then []
    else
      var last := events[|events| - 1];
      Group(events[..|events| - 1], c) + if last.correlationId == c then [last] else []
  }

  /** The items of one bucket, in the order of the events. */
  function Items(events: seq<Event>, b: Bucket): seq<ReplayItem> {
    if events == [] then []
    else
      var last := events[|events| - 1];
      Items(events[..|events| - 1], b) + if BucketOf(last.eventType) == b then [ItemOf(last)] else []
  }

  lemma GroupExtends(events: seq<Event>, e: Event, c: string)
    ensures Group(events + [e], c) == Group(events, c) + if e.correlationId == c then [e] else []
  {
    var longer := events + [e];
    assert longer[..|longer| - 1] == events;
  }

  lemma ItemsExtend(events: seq<Event>, e: Event, b: Bucket)
    ensures Items(events + [e], b) == Items(events, b) + if BucketOf(e.eventType) == b then [ItemOf(e)] else []
  {
    var longer := events + [e];
    assert longer[..|longer| - 1] == events;
  }

  lemma CorrelationsExtend(events: seq<Event>, e: Event)
    ensures Correlations(events + [e]) == Correlations(events) + {e.correlationId}
  {
    var longer := events + [e];
    assert longer[|events|] == e;
    forall i | 0 <= i < |events| ensures events[i].correlationId in Correlations(longer) {
      assert longer[i] == events[i];
    }
  }

  /** No group exists for a correlation id that the log does not mention. */
  lemma {:induction false} AbsentGroup(events: seq<Event>, c: string)
    requires c !in Correlations(events)
    ensures Group(events, c) == []
  {
    if events != [] {
      var init, last := events[..|events| - 1], events[|events| - 1];
      assert events == init + [last];
      CorrelationsExtend(init, last);
      AbsentGroup(init, c);
    }
  }

  // ------------------------------------------------------------- the loops

  method ByCorrelationId(events: seq<Event>) returns (groups: map<string, seq<Event>>)
    ensures groups.Keys == Correlations(events)
    ensures forall c :: c in groups ==> groups[c] == Group(events, c)
  {
    groups := map[];
    for i := 0 to |events|
      invariant groups.Keys == Correlations(events[..i])
      invariant forall c :: c in groups ==> groups[c] == Group(events[..i], c)
    {
      var e := events[i];
      assert events[..i + 1] == events[..i] + [e];
      CorrelationsExtend(events[..i], e);
      if e.correlationId !in groups { AbsentGroup(events[..i], e.correlationId); }
      forall c ensures Group(events[..i + 1], c) == Group(events[..i], c) + if e.correlationId == c then [e] else [] {
        GroupExtends(events[..i], e, c);
      }
      var before := if e.correlationId in groups then groups[e.correlationId] else [];
      groups := groups[e.correlationId := before + [e]];
    }
    assert events[..|events|] == events;
  }

  method ReplayGroup(c: string, events: seq<Event>) returns (group: CorrelationReplay)
    ensures group.correlationId == c
    ensures forall b :: At(group, b) == Items(events, b)
  {
    group := CorrelationReplay(c, [], [], [], [], [], [], []);
    for i := 0 to |events|
      invariant group.correlationId == c
      invariant forall b :: At(group, b) == Items(events[..i], b)
    {
      var e := events[i];
      assert events[..i + 1] == events[..i] + [e];
      forall b ensures Items(events[..i + 1], b)
                    == Items(events[..i], b) + if BucketOf(e.eventType) == b then [ItemOf(e)] else []
      {
        ItemsExtend(events[..i], e, b);
      }
      ghost var before := group;
      var item := ItemOf(e);
      if e.eventType.CapabilityRequested? {
        group := group.(requests := group.requests + [item]);
      } else if e.eventType.NetworkStateAsserted? {
        group := group.(states := group.states + [item]);
      } else if e.eventType.CapabilityAllowed? || e.eventType.CapabilityDenied? || e.eventType.CapabilityDegraded? {
        group := group.(decisions := group.decisions + [item]);
      } else if e.eventType.CommandAllowed? || e.eventType.CommandRejected? {
        group := group.(enforcement := group.enforcement + [item]);
      } else if e.eventType.LeaseRevoked? || e.eventType.RevocationRejected? {
        group := group.(revocations := group.revocations + [item]);
      } else if e.eventType.FallbackDeclared? {
        group := group.(fallbacks := group.fallbacks + [item]);
      } else {
        group := group.(diagnostics := group.diagnostics + [item]);
      }
      forall b ensures At(group, b) == Items(events[..i + 1], b) {
        assert At(before, b) == Items(events[..i], b);
      }
    }
    assert events[..|events|] == events;
  }

  /** Replay of a whole log; the groups may be visited in any order. */
  method Replay(events: seq<Event>) returns (groups: map<string, CorrelationReplay>)
    ensures groups.Keys == Correlations(events)
    ensures forall c, b :: c in groups ==> At(groups[c], b) == Items(Group(events, c), b)
  {
    var byId := ByCorrelationId(events);
    groups := map[];
    var rest := byId.Keys;
    while rest != {}
      invariant rest <= byId.Keys && groups.Keys == byId.Keys - rest
      invariant forall c, b :: c in groups ==> At(groups[c], b) == Items(Group(events, c), b)
      decreases |rest|
    {
      var c :| c in rest;
      var group := ReplayGroup(c, byId[c]);
      groups := groups[c := group];
      rest := rest - {c};
    }
  }

  // ------------------------------------------------------------- an order-preserving partition

  function GroupSize(events: seq<Event>): nat {
    |Items(events, Requests)| + |Items(events, States)| + |Items(events, Decisions)| + |Items(events, Enforcement)|
    + |Items(events, Revocations)| + |Items(events, Fallbacks)| + |Items(events, Diagnostics)|
  }

  lemma {:induction false} BucketsCoverGroup(events: seq<Event>)
    ensures GroupSize(events) == |events|
  {
    if events != [] {
      BucketsCoverGroup(events[..|events| - 1]);
    }
  }

  /** Sum of all bucket sizes over a set of groups. */
  ghost function TotalSize(events: seq<Event>, cs: set<string>): nat
    decreases |cs|
  {
    if cs == {} then 0
    else
      var c :| c in cs;
      GroupSize(Group(events, c)) + TotalSize(events, cs - {c})
  }

  lemma {:induction false} TotalSizeRemove(events: seq<Event>, cs: set<string>, c: string)
    requires c in cs
    ensures TotalSize(events, cs) == GroupSize(Group(events, c)) + TotalSize(events, cs - {c})
    decreases |cs|
  {
    var x :| x in cs && TotalSize(events, cs) == GroupSize(Group(events, x)) + TotalSize(events, cs - {x});
    if x != c {
      TotalSizeRemove(events, cs - {x}, c);
      TotalSizeRemove(events, cs - {c}, x);
      assert cs - {x} - {c} == cs - {c} - {x};
    }
  }

  lemma {:induction false} TotalSizeExtends(events: seq<Event>, e: Event, cs: set<string>)
    ensures TotalSize(events + [e], cs) == TotalSize(events, cs) + if e.correlationId in cs then 1 else 0
    decreases |cs|
  {
    if cs != {} {
      var c :| c in cs;
      TotalSizeRemove(events + [e], cs, c);
      TotalSizeRemove(events, cs, c);
      TotalSizeExtends(events, e, cs - {c});
      GroupExtends(events, e, c);
      BucketsCoverGroup(Group(events, c));
      BucketsCoverGroup(Group(events + [e], c));
    }
  }

  /** Conservation: the buckets of all groups together hold as many items as the log has events. */
  lemma {:induction false} ReplayConserves(events: seq<Event>)
    ensures TotalSize(events, Correlations(events)) == |events|
  {
    if events != [] {
      var init, last := events[..|events| - 1], events[|events| - 1];
      var c := last.correlationId;
      assert events == init + [last];
      CorrelationsExtend(init, last);
      ReplayConserves(init);
      TotalSizeExtends(init, last, Correlations(events));
      if c in Correlations(init) {
        assert Correlations(events) == Correlations(init);
      } else {
        TotalSizeRemove(init, Correlations(events), c);
        assert Correlations(events) - {c} == Correlations(init);
        AbsentGroup(init, c);
      }
    }
  }

  /** An item in a bucket of a group comes from an event of the log with that id, type and correlation. */
  lemma {:induction false} GroupMembers(events: seq<Event>, c: string, k: nat) returns (i: nat)
    requires k < |Group(events, c)|
    ensures i < |events| && events[i] == Group(events, c)[k] && events[i].correlationId == c
  {
    var init, last := events[..|events| - 1], events[|events| - 1];
    if k < |Group(init, c)| {
      i := GroupMembers(init, c, k);
    } else {
      i := |events| - 1;
    }
  }

  lemma {:induction false} BucketMembers(events: seq<Event>, b: Bucket, k: nat) returns (i: nat)
    requires k < |Items(events, b)|
    ensures i < |events| && ItemOf(events[i]) == Items(events, b)[k] && BucketOf(events[i].eventType) == b
  {
    var init, last := events[..|events| - 1], events[|events| - 1];
    if k < |Items(init, b)| {
      i := BucketMembers(init, b, k);
    } else {
      i := |events| - 1;
    }
  }

  /** An event of the log has a place in the group of its correlation. */
  lemma {:induction false} GroupPlace(events: seq<Event>, i: nat) returns (k: nat)
    requires i < |events|
    ensures k < |Group(events, events[i].correlationId)| && Group(events, events[i].correlationId)[k] == events[i]
  {
    var init := events[..|events| - 1];
    if i < |init| {
      k := GroupPlace(init, i);
    } else {
      k := |Group(init, events[i].correlationId)|;
    }
  }

  /** An event of a list has a place in the bucket of its type. */
  lemma {:induction false} BucketPlace(events: seq<Event>, i: nat) returns (k: nat)
    requires i < |events|
    ensures k < |Items(events, BucketOf(events[i].eventType))|
    ensures Items(events, BucketOf(events[i].eventType))[k] == ItemOf(events[i])
  {
    var init := events[..|events| - 1];
    if i < |init| {
      k := BucketPlace(init, i);
    } else {
      k := |Items(init, BucketOf(events[i].eventType))|;
    }
  }

  /** What kind of event belongs in a bucket. */
  predicate Belongs(t: EventType, b: Bucket) {
    match b
    case Requests => t == CapabilityRequested
    case States => t == NetworkStateAsserted
    case Decisions => t == CapabilityAllowed || t == CapabilityDenied || t == CapabilityDegraded
    case Enforcement => t == CommandAllowed || t == CommandRejected
    case Revocations => t == EventType.LeaseRevoked || t == RevocationRejected
    case Fallbacks => t == FallbackDeclared
    case Diagnostics => t == DemoSetup || t == Diagnostic
  }

  /** Every item of a bucket tells id, type, actor and references of an event of the log that belongs there. */
  lemma BucketTells(events: seq<Event>, c: string, b: Bucket, k: nat) returns (i: nat)
    requires k < |Items(Group(events, c), b)|
    ensures i < |events| && events[i].correlationId == c && Belongs(events[i].eventType, b)
    ensures var item := Items(Group(events, c), b)[k];
      && item.auditId == events[i].auditId && item.eventType == events[i].eventType
      && item.actorId == events[i].actorId && item.stateRefs == events[i].stateRefs
      && item.relatedMessageIds == events[i].relatedMessageIds
  {
    var j := BucketMembers(Group(events, c), b, k);
    i := GroupMembers(events, c, j);
  }

  predicate DistinctIds(events: seq<Event>) {
    forall m, n :: 0 <= m < n < |events| ==> events[m].auditId != events[n].auditId
  }

  /** A filter of a log without repeated ids has none either. */
  lemma {:induction false} GroupKeepsDistinct(events: seq<Event>, c: string)
    requires DistinctIds(events)
    ensures DistinctIds(Group(events, c))
  {
    if events != [] {
      var init, last := events[..|events| - 1], events[|events| - 1];
      GroupKeepsDistinct(init, c);
      forall k | 0 <= k < |Group(init, c)| ensures Group(init, c)[k].auditId != last.auditId {
        var i := GroupMembers(init, c, k);
      }
    }
  }

  lemma {:induction false} BucketKeepsDistinct(events: seq<Event>, b: Bucket, k: nat, l: nat)
    requires DistinctIds(events) && k < l < |Items(events, b)|
    ensures Items(events, b)[k].auditId != Items(events, b)[l].auditId
  {
    var init, last := events[..|events| - 1], events[|events| - 1];
    if l < |Items(init, b)| {
      BucketKeepsDistinct(init, b, k, l);
    } else {
      var i := BucketMembers(init, b, k);
    }
  }

  /** Item `k` of bucket `b` of group `c`. */
  ghost predicate PlacedAt(events: seq<Event>, e: Event, c: string, b: Bucket, k: nat) {
    k < |Items(Group(events, c), b)| && Items(Group(events, c), b)[k].auditId == e.auditId
  }

  /**
    In a log without repeated ids every event has exactly one place in the replay: in the
    bucket of its type in the group of its correlation, where its item stands once.
   */
  lemma LandsInOnePlace(events: seq<Event>, i: nat) returns (place: nat)
    requires DistinctIds(events) && i < |events|
    ensures var c, b := events[i].correlationId, BucketOf(events[i].eventType);
      place < |Items(Group(events, c), b)| && Items(Group(events, c), b)[place] == ItemOf(events[i])
    ensures forall c, b, k: nat :: PlacedAt(events, events[i], c, b, k) <==>
      c == events[i].correlationId && b == BucketOf(events[i].eventType) && k == place
  {
    var home, bucket := events[i].correlationId, BucketOf(events[i].eventType);
    var j := GroupPlace(events, i);
    place := BucketPlace(Group(events, home), j);
    GroupKeepsDistinct(events, home);
    forall c, b, k: nat | PlacedAt(events, events[i], c, b, k)
      ensures c == home && b == bucket && k == place
    {
      var m := BucketMembers(Group(events, c), b, k);
      var n := GroupMembers(events, c, m);
      assert events[n].auditId == events[i].auditId;
      if k < place {
        BucketKeepsDistinct(Group(events, home), bucket, k, place);
      } else if place < k {
        BucketKeepsDistinct(Group(events, home), bucket, place, k);
      }
    }
  }
}

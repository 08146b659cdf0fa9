/**
 * What a server handler sends.  A handler's output is described by a plan:
 * a sequence of emissions, each either one message to one connection, the
 * same message to every connection of a Map (a `forEach` over it), or the
 * `room-info` snapshot whose peer list follows the Map's key order.
 * The order in which `forEach` visits a Map is not modelled: an `All`
 * emission is met by any ordering of exactly one envelope per entry.
 */
module Broadcast {
  import opened Wire

  datatype Emission =
    | One(to: ConnId, msg: ServerMsg)
    | All(recipients: map<Id, ConnId>, msg: ServerMsg)
    | Listing(to: ConnId, roomId: Id, viewerId: Id, first: Id, rest: set<Id>)

  lemma RemoveKeyShrinks(m: map<Id, ConnId>, k: Id)
    requires k in m
    ensures |m - {k}| == |m| - 1
  {
    assert (m - {k}).Keys == m.Keys - {k};
  }

  /** Some entry of a non-empty Map. */
  ghost function Pick(m: map<Id, ConnId>): (k: Id)
    requires m != map[]
    ensures k in m
  {
    var k :| k in m; k
  }

  /** One envelope carrying `msg` per entry of `recipients`, duplicates kept. */
  ghost function Fanout(recipients: map<Id, ConnId>, msg: ServerMsg): multiset<Envelope>
    decreases |recipients|
  {
    if recipients == map[] then multiset{}
    else
      var k := Pick(recipients);
      RemoveKeyShrinks(recipients, k);
      multiset{Envelope(recipients[k], msg)} + Fanout(recipients - {k}, msg)
  }

  lemma MinusCommutes(m: map<Id, ConnId>, j: Id, k: Id)
    ensures m - {k} - {j} == m - {j} - {k}
  {
  }

  /** Fanout does not depend on which entry is taken first. */
  lemma {:induction false} FanoutPick(m: map<Id, ConnId>, j: Id, msg: ServerMsg)
    requires j in m
    ensures Fanout(m, msg) == multiset{Envelope(m[j], msg)} + Fanout(m - {j}, msg)
    decreases |m|
  {
    var k := Pick(m);
    if k != j {
      RemoveKeyShrinks(m, k);
      RemoveKeyShrinks(m, j);
      FanoutPick(m - {k}, j, msg);
      FanoutPick(m - {j}, k, msg);
      MinusCommutes(m, j, k);
    }
  }

  /** Exactly one envelope per entry. */
  lemma {:induction false} FanoutSize(m: map<Id, ConnId>, msg: ServerMsg)
    ensures |Fanout(m, msg)| == |m|
    decreases |m|
  {
    if m != map[] {
      var k :| k in m;
      FanoutPick(m, k, msg);
      RemoveKeyShrinks(m, k);
      FanoutSize(m - {k}, msg);
    }
  }

  /** Every envelope of a fanout carries `msg` to a connection of the Map, and nothing else is sent. */
  lemma {:induction false} FanoutShape(m: map<Id, ConnId>, msg: ServerMsg, e: Envelope)
    requires e in Fanout(m, msg)
    ensures e.msg == msg && e.to in m.Values
    decreases |m|
  {
    var k :| k in m;
    FanoutPick(m, k, msg);
    RemoveKeyShrinks(m, k);
    if e != Envelope(m[k], msg) {
      FanoutShape(m - {k}, msg, e);
    }
  }

  /** The number of ids of `m` bound to connection `c`. */
  ghost function IdsOn(m: map<Id, ConnId>, c: ConnId): set<Id> {
    set k | k in m && m[k] == c
  }

  /** A connection receives the broadcast once for every id it is registered under. */
  lemma {:induction false} FanoutCount(m: map<Id, ConnId>, msg: ServerMsg, c: ConnId)
    ensures Fanout(m, msg)[Envelope(c, msg)] == |IdsOn(m, c)|
    decreases |m|
  {
    if m == map[] {
      assert IdsOn(m, c) == {};
    } else {
      var k :| k in m;
      FanoutPick(m, k, msg);
      RemoveKeyShrinks(m, k);
      FanoutCount(m - {k}, msg, c);
      if m[k] == c {
        assert IdsOn(m, c) == IdsOn(m - {k}, c) + {k};
      } else {
        assert IdsOn(m, c) == IdsOn(m - {k}, c);
      }
    }
  }

  /** `ids` lists every element of `s` exactly once. */
  ghost predicate Enumerates(ids: seq<Id>, s: set<Id>) {
    && (forall i, j :: 0 <= i < j < |ids| ==> ids[i] != ids[j])
    && (forall x :: x in s <==> x in ids)
  }

  /** A duplicate-free listing is as long as the set it lists. */
  lemma {:induction false} EnumeratesSize(ids: seq<Id>, s: set<Id>)
    requires Enumerates(ids, s)
    ensures |ids| == |s|
    decreases |ids|
  {
    if ids == [] {
      assert s == {};
    } else {
      var rest := ids[1..];
      forall x
        ensures x in s - {ids[0]} <==> x in rest
      {
        if x in rest {
          var i :| 0 <= i < |rest| && rest[i] == x;
          assert ids[i + 1] == x;
        }
        if x in ids && x != ids[0] {
          var i :| 0 <= i < |ids| && ids[i] == x;
          assert rest[i - 1] == x;
        }
      }
      assert Enumerates(rest, s - {ids[0]}) by {
        forall i, j | 0 <= i < j < |rest|
          ensures rest[i] != rest[j]
        {
          assert rest[i] == ids[i + 1] && rest[j] == ids[j + 1];
        }
      }
      EnumeratesSize(rest, s - {ids[0]});
    }
  }

  function Width(e: Emission): nat {
    match e
    case All(recipients, _) => |recipients|
    case _ => 1
  }

  /** `out` is exactly what emission `e` sends. */
  ghost predicate Chunk(out: seq<Envelope>, e: Emission) {
    match e
    case One(to, msg) => out == [Envelope(to, msg)]
    case All(recipients, msg) => multiset(out) == Fanout(recipients, msg)
    case Listing(to, roomId, viewerId, first, rest) =>
      && |out| == 1 && out[0].to == to
      && out[0].msg.RoomInfo? && out[0].msg.roomId == roomId && out[0].msg.viewerId == viewerId
      && |out[0].msg.peers| >= 1 && out[0].msg.peers[0] == first
      && Enumerates(out[0].msg.peers[1..], rest)
  }

  /** `out` is the plan's emissions, one after the other. */
  ghost predicate Emits(out: seq<Envelope>, plan: seq<Emission>)
    decreases |plan|
  {
    if plan == [] then out == []
    else
      var w := Width(plan[0]);
      && w <= |out|
      && Chunk(out[..w], plan[0])
      && Emits(out[w..], plan[1..])
  }

  /** `after` is `before` followed by what the plan sends. */
  ghost predicate Appended(before: seq<Envelope>, after: seq<Envelope>, plan: seq<Emission>) {
    |before| <= |after| && after[..|before|] == before && Emits(after[|before|..], plan)
  }

  lemma EmitsCons(chunk: seq<Envelope>, e: Emission, rest: seq<Envelope>, plan: seq<Emission>)
    requires |chunk| == Width(e) && Chunk(chunk, e) && Emits(rest, plan)
    ensures Emits(chunk + rest, [e] + plan)
  {
    var out := chunk + rest;
    assert out[..|chunk|] == chunk;
    assert out[|chunk|..] == rest;
    assert ([e] + plan)[1..] == plan;
  }

  lemma AppendedOf(before: seq<Envelope>, sent: seq<Envelope>, plan: seq<Emission>)
    requires Emits(sent, plan)
    ensures Appended(before, before + sent, plan)
  {
    assert (before + sent)[..|before|] == before;
    assert (before + sent)[|before|..] == sent;
  }

  lemma Assoc2(before: seq<Envelope>, c1: seq<Envelope>, c2: seq<Envelope>)
    ensures before + c1 + c2 == before + (c1 + c2)
  {
  }

  lemma Assoc3(before: seq<Envelope>, c1: seq<Envelope>, c2: seq<Envelope>, c3: seq<Envelope>)
    ensures before + c1 + c2 + c3 == before + (c1 + c2 + c3)
  {
  }

  lemma Assoc4(before: seq<Envelope>, c1: seq<Envelope>, c2: seq<Envelope>, c3: seq<Envelope>, c4: seq<Envelope>)
    ensures before + c1 + c2 + c3 + c4 == before + (c1 + c2 + c3 + c4)
  {
  }

  /** Nothing sent. */
  lemma AppendedNothing(before: seq<Envelope>)
    ensures Appended(before, before, [])
  {
    assert before[|before|..] == [];
  }

  /** One chunk emits a one-step plan. */
  lemma EmitsSingle(chunk: seq<Envelope>, e: Emission)
    requires |chunk| == Width(e) && Chunk(chunk, e)
    ensures Emits(chunk, [e])
  {
    EmitsCons(chunk, e, [], []);
    assert chunk + [] == chunk;
    assert [e] + [] == [e];
  }

  /** A one-message plan is met only by that message. */
  lemma EmitsOne(out: seq<Envelope>, to: ConnId, msg: ServerMsg)
    requires Emits(out, [One(to, msg)])
    ensures out == [Envelope(to, msg)]
  {
    assert [One(to, msg)][1..] == [];
    assert out == out[..1] + out[1..];
  }

  /** Two single-chunk emissions in a row. */
  lemma Emits2(c1: seq<Envelope>, e1: Emission, c2: seq<Envelope>, e2: Emission)
    requires |c1| == Width(e1) && Chunk(c1, e1)
    requires |c2| == Width(e2) && Chunk(c2, e2)
    ensures Emits(c1 + c2, [e1, e2])
  {
    EmitsSingle(c2, e2);
    EmitsCons(c1, e1, c2, [e2]);
    assert [e1] + [e2] == [e1, e2];
  }

  /** Three single-chunk emissions in a row. */
  lemma Emits3(c1: seq<Envelope>, e1: Emission, c2: seq<Envelope>, e2: Emission, c3: seq<Envelope>, e3: Emission)
    requires |c1| == Width(e1) && Chunk(c1, e1)
    requires |c2| == Width(e2) && Chunk(c2, e2)
    requires |c3| == Width(e3) && Chunk(c3, e3)
    ensures Emits(c1 + c2 + c3, [e1, e2, e3])
  {
    Emits2(c2, e2, c3, e3);
    EmitsCons(c1, e1, c2 + c3, [e2, e3]);
    Assoc2(c1, c2, c3);
    assert [e1] + [e2, e3] == [e1, e2, e3];
  }

  /** Four single-chunk emissions in a row. */
  lemma Emits4(c1: seq<Envelope>, e1: Emission, c2: seq<Envelope>, e2: Emission,
               c3: seq<Envelope>, e3: Emission, c4: seq<Envelope>, e4: Emission)
    requires |c1| == Width(e1) && Chunk(c1, e1)
    requires |c2| == Width(e2) && Chunk(c2, e2)
    requires |c3| == Width(e3) && Chunk(c3, e3)
    requires |c4| == Width(e4) && Chunk(c4, e4)
    ensures Emits(c1 + c2 + c3 + c4, [e1, e2, e3, e4])
  {
    Emits3(c2, e2, c3, e3, c4, e4);
    EmitsCons(c1, e1, c2 + c3 + c4, [e2, e3, e4]);
    Assoc3(c1, c2, c3, c4);
    assert [e1] + [e2, e3, e4] == [e1, e2, e3, e4];
  }

  /** The connections a plan may send to. */
  ghost function Targets(plan: seq<Emission>): set<ConnId>
    decreases |plan|
  {
    if plan == [] then {}
    else
      (match plan[0]
       case One(to, _) => {to}
       case All(recipients, _) => recipients.Values
       case Listing(to, _, _, _, _) => {to}) + Targets(plan[1..])
  }

  /** Whatever meets a plan sends only to the plan's targets. */
  lemma {:induction false} EmitsOnlyTargets(out: seq<Envelope>, plan: seq<Emission>, e: Envelope)
    requires Emits(out, plan) && e in out
    ensures e.to in Targets(plan)
    decreases |plan|
  {
    var w := Width(plan[0]);
    assert out == out[..w] + out[w..];
    if e in out[w..] {
      EmitsOnlyTargets(out[w..], plan[1..], e);
    } else {
      match plan[0]
      case One(_, _) =>
      case Listing(_, _, _, _, _) =>
      case All(recipients, msg) =>
        assert e in multiset(out[..w]);
        FanoutShape(recipients, msg, e);
    }
  }

  /** No step of the plan is a `room-info` snapshot, whose peer order is left open. */
  ghost predicate Determinate(plan: seq<Emission>) {
    forall i :: 0 <= i < |plan| ==> !plan[i].Listing?
  }

  /** What one snapshot-free emission sends, counted with multiplicity. */
  ghost function Bag(e: Emission): multiset<Envelope>
    requires !e.Listing?
  {
    match e
    case One(to, msg) => multiset{Envelope(to, msg)}
    case All(recipients, msg) => Fanout(recipients, msg)
  }

  /** Everything a snapshot-free plan sends, counted with multiplicity. */
  ghost function Sent(plan: seq<Emission>): multiset<Envelope>
    requires Determinate(plan)
    decreases |plan|
  {
    if plan == [] then multiset{} else Bag(plan[0]) + Sent(plan[1..])
  }

  lemma Sent2(e1: Emission, e2: Emission)
    requires !e1.Listing? && !e2.Listing?
    ensures Determinate([e1, e2]) && Sent([e1, e2]) == Bag(e1) + Bag(e2)
  {
    assert [e1, e2][1..] == [e2];
    assert [e2][1..] == [];
    assert Sent([e2]) == Bag(e2) + Sent([]);
  }

  lemma Sent3(e1: Emission, e2: Emission, e3: Emission)
    requires !e1.Listing? && !e2.Listing? && !e3.Listing?
    ensures Determinate([e1, e2, e3]) && Sent([e1, e2, e3]) == Bag(e1) + Bag(e2) + Bag(e3)
  {
    assert [e1, e2, e3][1..] == [e2, e3];
    Sent2(e2, e3);
  }

  lemma Sent4(e1: Emission, e2: Emission, e3: Emission, e4: Emission)
    requires !e1.Listing? && !e2.Listing? && !e3.Listing? && !e4.Listing?
    ensures Determinate([e1, e2, e3, e4]) && Sent([e1, e2, e3, e4]) == Bag(e1) + Bag(e2) + Bag(e3) + Bag(e4)
  {
    assert [e1, e2, e3, e4][1..] == [e2, e3, e4];
    Sent3(e2, e3, e4);
  }

  /** Whatever meets a snapshot-free plan sends exactly the plan's envelopes, in some order. */
  lemma {:induction false} EmitsSent(out: seq<Envelope>, plan: seq<Emission>)
    requires Determinate(plan) && Emits(out, plan)
    ensures multiset(out) == Sent(plan)
    decreases |plan|
  {
    if plan != [] {
      var w := Width(plan[0]);
      assert out == out[..w] + out[w..];
      EmitsSent(out[w..], plan[1..]);
    }
  }

  /**
   * The `forEach` over a Map that sends the same message to every value:
   * one envelope per entry, in an unspecified order.
   */
  method SendToAll(recipients: map<Id, ConnId>, msg: ServerMsg) returns (sent: seq<Envelope>)
    ensures |sent| == |recipients|
    ensures multiset(sent) == Fanout(recipients, msg)
  {
    sent := [];
    var rest := recipients;
    while rest != map[]
      invariant multiset(sent) + Fanout(rest, msg) == Fanout(recipients, msg)
      decreases |rest|
    {
      var k :| k in rest;
      FanoutPick(rest, k, msg);
      RemoveKeyShrinks(rest, k);
      sent := sent + [Envelope(rest[k], msg)];
      rest := rest - {k};
    }
    FanoutSize(recipients, msg);
    assert |multiset(sent)| == |sent|;
  }

  /** `Array.from(map.keys())`: every key once, in an unspecified order. */
  method KeyList(m: map<Id, ConnId>) returns (ids: seq<Id>)
    ensures Enumerates(ids, m.Keys)
    ensures |ids| == |m|
  {
    ids := [];
    var rest := m;
    while rest != map[]
      invariant rest.Keys <= m.Keys
      invariant forall i, j :: 0 <= i < j < |ids| ==> ids[i] != ids[j]
      invariant forall x :: x in m <==> x in ids || x in rest
      invariant forall x :: x in ids ==> x !in rest
      invariant |ids| + |rest| == |m|
      decreases |rest|
    {
      var k :| k in rest;
      RemoveKeyShrinks(rest, k);
      ids := ids + [k];
      rest := rest - {k};
    }
  }
}

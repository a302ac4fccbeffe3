/**
 The table of subscriptions forwarded to remote nodes, which is replayed when a
 connection is re-established.  It is compared with the history of what was
 forwarded, withdrawn and dropped.
 */
module RemoteSubscriptions {
  import opened Messages

  datatype SubscriptionInfo = SubscriptionInfo(source: Agent, name: Agent)

  /** What a subscription message says: who subscribes to which name. */
  datatype Subscription = Subscription(source: Agent, nameType: nat, nameId: Option<nat>)

  datatype Event =
    | Forwarded(sub: Subscription, conn: nat)
    | Withdrawn(sub: Subscription, conn: nat)
    | Dropped(conn: nat)

  function Stored(s: Subscription): SubscriptionInfo {
    SubscriptionInfo(s.source, Agent(s.nameType, IdOrDefault(s.nameId)))
  }

  function Restored(i: SubscriptionInfo): Subscription {
    Subscription(i.source, i.name.agentType, OptionalId(i.name.agentId))
  }

  /** Replaying a stored subscription gives back the original, except for the reserved id. */
  lemma RoundTrip(s: Subscription)
    ensures Restored(Stored(s)) == s <==> s.nameId != Some(DEFAULT_AGENT_ID)
    ensures Stored(Restored(Stored(s))) == Stored(s)
  {
  }

  predicate Adds(e: Event, i: SubscriptionInfo, conn: nat) {
    e.Forwarded? && e.conn == conn && Stored(e.sub) == i
  }

  predicate Removes(e: Event, i: SubscriptionInfo, conn: nat) {
    e.conn == conn && (e.Dropped? || (e.Withdrawn? && Stored(e.sub) == i))
  }

  /** The subscription was forwarded on the connection and nothing has removed it since. */
  ghost predicate Standing(history: seq<Event>, i: SubscriptionInfo, conn: nat) {
    exists n :: 0 <= n < |history| && Adds(history[n], i, conn) && NotRemoved(history, n, i, conn)
  }

  ghost predicate NotRemoved(history: seq<Event>, n: nat, i: SubscriptionInfo, conn: nat) {
    forall m :: n < m < |history| ==> !Removes(history[m], i, conn)
  }

  /** How one more event changes what stands. */
  lemma {:induction false} StandingStep(history: seq<Event>, e: Event, i: SubscriptionInfo, conn: nat)
    ensures Standing(history + [e], i, conn) <==>
            Adds(e, i, conn) || (Standing(history, i, conn) && !Removes(e, i, conn))
  {
    var h' := history + [e];
    if Standing(h', i, conn) && !Adds(e, i, conn) {
      var n :| 0 <= n < |h'| && Adds(h'[n], i, conn) && NotRemoved(h', n, i, conn);
      assert !Removes(h'[|history|], i, conn);
      assert forall m :: n < m < |history| ==> h'[m] == history[m];
      assert NotRemoved(history, n, i, conn);
    }
    if Adds(e, i, conn) {
      assert Adds(h'[|history|], i, conn) && NotRemoved(h', |history|, i, conn);
    } else if Standing(history, i, conn) && !Removes(e, i, conn) {
      var n :| 0 <= n < |history| && Adds(history[n], i, conn) && NotRemoved(history, n, i, conn);
      assert Adds(h'[n], i, conn) && NotRemoved(h', n, i, conn);
    }
  }

  function At(table: map<nat, set<SubscriptionInfo>>, conn: nat): set<SubscriptionInfo> {
    if conn in table then table[conn] else {}
  }

  class RemoteSubscriptionTable {
    var table: map<nat, set<SubscriptionInfo>>
    ghost var history: seq<Event>

    /** The table holds exactly what stands, and no connection with an empty set. */
    ghost predicate Valid()
      reads this
    {
      && (forall conn :: conn in table ==> table[conn] != {})
      && (forall conn, i :: i in At(table, conn) <==> Standing(history, i, conn))
    }

    constructor ()
      ensures Valid() && history == []
    {
      table, history := map[], [];
    }

    ghost method Record(e: Event, before: map<nat, set<SubscriptionInfo>>)
      requires forall conn, i :: i in At(before, conn) <==> Standing(history, i, conn)
      requires forall conn, i :: i in At(table, conn) <==>
                 Adds(e, i, conn) || (i in At(before, conn) && !Removes(e, i, conn))
      requires forall conn :: conn in table ==> table[conn] != {}
      modifies this`history
      ensures Valid() && history == old(history) + [e]
    {
      forall conn: nat, i
        ensures i in At(table, conn) <==> Standing(history + [e], i, conn)
      {
        StandingStep(history, e, i, conn);
      }
      history := history + [e];
    }

    method AddSubscription(sub: Subscription, conn: nat)
      requires Valid()
      modifies this
      ensures Valid() && history == old(history) + [Forwarded(sub, conn)]
      ensures forall c :: c != conn ==> At(table, c) == At(old(table), c)
    {
      ghost var before := table;
      var info := Stored(sub);
      if conn !in table {
        table := table[conn := {info}];
      } else {
        table := table[conn := table[conn] + {info}];
      }
      Record(Forwarded(sub, conn), before);
    }

    method RemoveSubscription(sub: Subscription, conn: nat)
      requires Valid()
      modifies this
      ensures Valid() && history == old(history) + [Withdrawn(sub, conn)]
      ensures forall c :: c != conn ==> At(table, c) == At(old(table), c)
    {
      ghost var before := table;
      if conn in table {
        var left := table[conn] - {Stored(sub)};
        if left == {} {
          table := table - {conn};
        } else {
          table := table[conn := left];
        }
      }
      Record(Withdrawn(sub, conn), before);
    }

    method RemoveConnection(conn: nat)
      requires Valid()
      modifies this
      ensures Valid() && history == old(history) + [Dropped(conn)]
      ensures forall c :: c != conn ==> At(table, c) == At(old(table), c)
    {
      ghost var before := table;
      table := table - {conn};
      Record(Dropped(conn), before);
    }

    /** What is replayed on a re-established connection: exactly the standing subscriptions. */
    method Replay(conn: nat) returns (subs: set<Subscription>)
      requires Valid()
      ensures forall s :: s in subs <==> (exists i :: Standing(history, i, conn) && Restored(i) == s)
      ensures forall s: Subscription :: s.nameId != Some(DEFAULT_AGENT_ID) ==> (s in subs <==> Standing(history, Stored(s), conn))
    {
      var infos := if conn in table then table[conn] else {};
      assert infos == At(table, conn);
      subs := set i <- infos :: Restored(i);
      forall s: Subscription | s.nameId != Some(DEFAULT_AGENT_ID)
        ensures s in subs <==> Standing(history, Stored(s), conn)
      {
        RoundTrip(s);
        if s in subs {
          var i :| i in infos && Restored(i) == s;
          assert Stored(s) == i;
        }
      }
    }
  }
}

/**
 * The pieces shared by every Sentry-aware handler: the permission sets a handler asks
 * for, the arguments of one admin check, and the check-then-delegate shape every secure
 * handler has. The Sentry engine itself is not modelled: its verdict is a predicate
 * `allow` supplied by the caller, and a denial is the `Forbidden` outcome (the Java code
 * throws, so the base handler is never reached).
 */
module SentryCheck {
  import opened Wrappers

  /** Sentry's search-model actions. */
  datatype SearchModelAction = Query | Update

  /** The three permission sets a secure handler requires. */
  const QueryOnly: set<SearchModelAction> := {Query}
  const UpdateOnly: set<SearchModelAction> := {Update}
  const QueryAndUpdate: set<SearchModelAction> := {Query, Update}

  /** The arguments of one admin check: the actions required, whether the check is also
      made against a collection, and that collection (`None` is Java's null). */
  datatype Check = Check(actions: set<SearchModelAction>, checkCollection: bool, collection: Option<string>)

  /** What a secure handler does, in order: a call to the admin check, and the call to the
      base handler it extends. */
  datatype Event = Authorize(check: Check) | Delegate

  datatype Outcome = Handled | Forbidden(denied: Check)

  /** The number of admin checks in a trace. */
  function Authorizations(trace: seq<Event>): nat {
    if trace == [] then 0
    else (if trace[0].Authorize? then 1 else 0) + Authorizations(trace[1..])
  }

  /** The two invariants of every secure handler: exactly one admin check is made, and the
      base handler is reached only after a check that passed. */
  ghost predicate CheckedThenDelegated(trace: seq<Event>, allow: Check -> bool) {
    && Authorizations(trace) == 1
    && forall i | 0 <= i < |trace| && trace[i].Delegate? ::
         exists j | 0 <= j < i :: trace[j].Authorize? && allow(trace[j].check)
  }

  /** One admin check with `c`, then, if it passed, the call to the base handler. */
  method CheckThenDelegate(c: Check, allow: Check -> bool) returns (trace: seq<Event>, outcome: Outcome)
    ensures trace == [Authorize(c)] + (if allow(c) then [Delegate] else [])
    ensures |trace| > 0 && trace[0] == Authorize(c)
    ensures CheckedThenDelegated(trace, allow)
    ensures Delegate in trace <==> allow(c)
    ensures outcome == if allow(c) then Handled else Forbidden(c)
  {
    trace := [Authorize(c)];
    assert Authorizations(trace) == 1 by { assert trace[1..] == []; }
    if !allow(c) {
      return trace, Forbidden(c);
    }
    trace := trace + [Delegate];
    assert Authorizations(trace) == 1 by { assert trace[1..] == [Delegate] && trace[1..][1..] == []; }
    assert trace[0].Authorize? && allow(trace[0].check);
    outcome := Handled;
  }
}

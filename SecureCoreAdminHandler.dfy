/**
 * The Sentry-aware core admin handler: a core admin request is mapped to one admin check
 * (the permission set, whether the collection is checked, and which collection), and the
 * request is handed to the ordinary core admin handler only after that check passes.
 */
module SecureCoreAdminHandler {
  import opened Wrappers
  import opened SentryCheck

  /** The core admin actions the handler names. `Unlisted` stands for any other constant of
      the action enum, which the handler treats through its `default` branches. */
  datatype CoreAdminAction =
    | Status | Load | Unload | Reload | Create | Persist | Swap | Rename | MergeIndexes
    | Split | PrepRecovery | RequestRecovery | RequestSyncShard | RequestApplyUpdates
    | CreateAlias | DeleteAlias | LoadOnStartup | Transient
    | Unlisted(name: string)

  /** Request parameter names. */
  const ActionParam := "action"
  const NameParam := "name"
  const CollectionParam := "collection"

  /** Actions about one existing core, whose collection is that of the core named by NAME. */
  predicate NamesCore(a: CoreAdminAction) {
    a.Rename? || a.Unload? || a.Status? || a.Reload? || a.Swap? || a.MergeIndexes? || a.Split?
    || a.PrepRecovery? || a.RequestRecovery? || a.RequestSyncShard? || a.RequestApplyUpdates?
  }

  /** Actions that need only UPDATE. */
  predicate NeedsUpdateOnly(a: CoreAdminAction) {
    a.Load? || a.Unload? || a.Reload? || a.Create? || a.Persist? || a.Swap? || a.Rename?
    || a.MergeIndexes? || a.Split? || a.PrepRecovery? || a.RequestRecovery?
    || a.RequestSyncShard? || a.RequestApplyUpdates? || a.CreateAlias? || a.DeleteAlias?
    || a.LoadOnStartup? || a.Transient?
  }

  /** The collection of the core named by the NAME parameter. NAME is read with "" as its
      default and compared to "" by reference, so only an absent NAME skips the core lookup;
      a core that does not exist gives null. `cores` maps each core name to its collection. */
  function NamedCoreCollection(params: map<string, string>, cores: map<string, string>): Option<string> {
    if NameParam in params && params[NameParam] in cores then Some(cores[params[NameParam]]) else None
  }

  /** The first switch: whether the collection is checked, and which collection. */
  function Scope(a: CoreAdminAction, params: map<string, string>, cores: map<string, string>): (bool, Option<string>) {
    if NamesCore(a) then (true, NamedCoreCollection(params, cores))
    else if a.Create? then (true, Lookup(params, CollectionParam))
    else (false, None)
  }

  /** The second switch: the permission set an action needs. */
  function Permission(a: CoreAdminAction): set<SearchModelAction> {
    if a.Status? then QueryOnly
    else if NeedsUpdateOnly(a) then UpdateOnly
    else QueryAndUpdate
  }

  /** The admin check made for a request. `lookup` is the enum's name lookup (`None` for a
      name that is not an action); `cores` maps core names to their collections. */
  function CoreAdminCheck(params: map<string, string>, lookup: string -> Option<CoreAdminAction>,
                          cores: map<string, string>): (c: Check)
    // no action parameter: the request is a STATUS request
    ensures ActionParam !in params ==> c == Check(QueryOnly, true, NamedCoreCollection(params, cores))
    // an action name that is not an action: QUERY and UPDATE, collection checked, no collection
    ensures ActionParam in params && lookup(params[ActionParam]).None? ==> c == Check(QueryAndUpdate, true, None)
    ensures ActionParam in params && lookup(params[ActionParam]).Some? ==>
              var a := lookup(params[ActionParam]).value;
              && (NamesCore(a) ==> c.checkCollection && c.collection == NamedCoreCollection(params, cores))
              && (a.Create? ==> c.checkCollection && c.collection == Lookup(params, CollectionParam))
              && (!NamesCore(a) && !a.Create? ==> !c.checkCollection && c.collection.None?)
              && (a.Status? ==> c.actions == QueryOnly)
              && (NeedsUpdateOnly(a) ==> c.actions == UpdateOnly)
              && (!a.Status? && !NeedsUpdateOnly(a) ==> c.actions == QueryAndUpdate)
    // only STATUS (named or by default) can be granted without UPDATE
    ensures Update !in c.actions <==>
              (ActionParam !in params || lookup(params[ActionParam]) == Some(Status))
    // a collection is named only when the collection is checked
    ensures c.collection.Some? ==> c.checkCollection
    ensures c.actions == QueryOnly || c.actions == UpdateOnly || c.actions == QueryAndUpdate
  {
    var action := if ActionParam in params then lookup(params[ActionParam]) else Some(Status);
    if action.None? then
      // some custom action: the check is made at once, and the switches are skipped
      Check(QueryAndUpdate, true, None)
    else
      var (checkCollection, collection) := Scope(action.value, params, cores);
      Check(Permission(action.value), checkCollection, collection)
  }

  /** The secure handler: exactly one admin check, then the base handler if it passed. */
  method HandleRequestBody(params: map<string, string>, lookup: string -> Option<CoreAdminAction>,
                           cores: map<string, string>, allow: Check -> bool)
    returns (trace: seq<Event>, outcome: Outcome)
    ensures trace == [Authorize(CoreAdminCheck(params, lookup, cores))] + (if allow(CoreAdminCheck(params, lookup, cores)) then [Delegate] else [])
    ensures |trace| > 0 && trace[0] == Authorize(CoreAdminCheck(params, lookup, cores))
    ensures CheckedThenDelegated(trace, allow)
    ensures Delegate in trace <==> allow(CoreAdminCheck(params, lookup, cores))
    ensures outcome.Forbidden? <==> !allow(CoreAdminCheck(params, lookup, cores))
  {
    var c := CoreAdminCheck(params, lookup, cores);
    trace, outcome := CheckThenDelegate(c, allow);
  }
}

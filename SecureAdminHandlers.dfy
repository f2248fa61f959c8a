/**
 * The Sentry-aware admin handlers: a fixed table of eight named handlers, each of which
 * makes one admin check with a fixed permission set and then runs the handler it extends.
 */
module SecureAdminHandlers {
  import opened Wrappers
  import opened SentryCheck

  /** The eight secure handler classes. */
  datatype SecureHandler =
    | SecureLukeRequestHandler | SecureSystemInfoHandler | SecureSolrInfoMBeanHandler
    | SecurePluginInfoHandler | SecureThreadDumpHandler | SecurePropertiesRequestHandler
    | SecureLoggingHandler | SecureShowFileRequestHandler

  /** The table of standard handlers, by name, in registration order. */
  function StandardHandlers(): (r: seq<(string, SecureHandler)>)
    ensures |r| == 8
    ensures [r[0].0, r[1].0, r[2].0, r[3].0, r[4].0, r[5].0, r[6].0, r[7].0]
            == ["luke", "system", "mbeans", "plugins", "threads", "properties", "logging", "file"]
    // no name and no handler is registered twice, and every secure handler is registered
    ensures forall i, j | 0 <= i < j < |r| :: r[i].0 != r[j].0 && r[i].1 != r[j].1
    ensures forall h: SecureHandler :: (HandlerName(h), h) in r
  {
    [ ("luke", SecureLukeRequestHandler),
      ("system", SecureSystemInfoHandler),
      ("mbeans", SecureSolrInfoMBeanHandler),
      ("plugins", SecurePluginInfoHandler),
      ("threads", SecureThreadDumpHandler),
      ("properties", SecurePropertiesRequestHandler),
      ("logging", SecureLoggingHandler),
      ("file", SecureShowFileRequestHandler) ]
  }

  /** The name each secure handler is registered under. */
  function HandlerName(h: SecureHandler): string {
    match h
    case SecureLukeRequestHandler => "luke"
    case SecureSystemInfoHandler => "system"
    case SecureSolrInfoMBeanHandler => "mbeans"
    case SecurePluginInfoHandler => "plugins"
    case SecureThreadDumpHandler => "threads"
    case SecurePropertiesRequestHandler => "properties"
    case SecureLoggingHandler => "logging"
    case SecureShowFileRequestHandler => "file"
  }

  /** The admin check a handler makes; `hasCore` says whether the request carries a core. */
  function HandlerCheck(h: SecureHandler, hasCore: bool): (c: Check)
    // every handler passes a null collection
    ensures c.collection.None?
    // logging can read and change the log levels; every other handler only reads
    ensures c.actions == (if h.SecureLoggingHandler? then QueryAndUpdate else QueryOnly)
    ensures Update in c.actions <==> h.SecureLoggingHandler?
    // luke, plugins, file and mbeans check the collection; system checks it exactly when
    // the request has a core; logging, properties and threads never do
    ensures c.checkCollection <==>
              (h.SecureLukeRequestHandler? || h.SecurePluginInfoHandler? || h.SecureShowFileRequestHandler?
               || h.SecureSolrInfoMBeanHandler? || (h.SecureSystemInfoHandler? && hasCore))
  {
    match h
    case SecureLoggingHandler => Check(QueryAndUpdate, false, None)
    case SecureLukeRequestHandler => Check(QueryOnly, true, None)
    case SecurePluginInfoHandler => Check(QueryOnly, true, None)
    case SecurePropertiesRequestHandler => Check(QueryOnly, false, None)
    case SecureShowFileRequestHandler => Check(QueryOnly, true, None)
    case SecureSolrInfoMBeanHandler => Check(QueryOnly, true, None)
    case SecureSystemInfoHandler => Check(QueryOnly, hasCore, None)
    case SecureThreadDumpHandler => Check(QueryOnly, false, None)
  }

  /** The handler registered under `name`, if any. */
  function HandlerNamed(name: string): (r: Option<SecureHandler>)
    ensures r.Some? <==> exists i | 0 <= i < |StandardHandlers()| :: StandardHandlers()[i].0 == name
    ensures r.Some? ==> (name, r.value) in StandardHandlers()
  {
    FindHandler(StandardHandlers(), name)
  }

  function FindHandler(table: seq<(string, SecureHandler)>, name: string): (r: Option<SecureHandler>)
    ensures r.Some? <==> exists i | 0 <= i < |table| :: table[i].0 == name
    ensures r.Some? ==> (name, r.value) in table
  {
    if table == [] then None
    else if table[0].0 == name then Some(table[0].1)
    else
      var r := FindHandler(table[1..], name);
      assert forall i | 1 <= i < |table| :: table[i] == table[1..][i - 1];
      r
  }

  /** `handleRequestBody` of a secure handler: one admin check, then the base handler. */
  method HandleRequestBody(h: SecureHandler, hasCore: bool, allow: Check -> bool)
    returns (trace: seq<Event>, outcome: Outcome)
    ensures trace == [Authorize(HandlerCheck(h, hasCore))] + (if allow(HandlerCheck(h, hasCore)) then [Delegate] else [])
    ensures |trace| > 0 && trace[0] == Authorize(HandlerCheck(h, hasCore))
    ensures CheckedThenDelegated(trace, allow)
    ensures Delegate in trace <==> allow(HandlerCheck(h, hasCore))
    ensures outcome.Forbidden? <==> !allow(HandlerCheck(h, hasCore))
  {
    trace, outcome := CheckThenDelegate(HandlerCheck(h, hasCore), allow);
  }
}

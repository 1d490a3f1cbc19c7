/**
 * The command handler of main.go: `checkArgs` validates the combination of
 * flags, positional arguments and input, and `boltCmdHandler` checks the
 * arguments, opens the database and dispatches on the action.
 */
module Command {

  import opened Wrappers
  import opened Config

  /**
   * What `checkArgs` looks at in a call: which of the flags `path`,
   * `bucket`, `key` and `filter` were given, the `action` argument, how
   * many `data` arguments follow it and whether there is pipeline input.
   * The plugin's signature makes the database name and the action required,
   * so `call.Positional` holds `2 + dataArgs` values.
   */
  datatype Call = Call(
    path: bool, bucket: bool, key: bool, filter: bool,
    action: string, dataArgs: nat, input: bool)

  /** The argument combinations `checkArgs` refuses, in the order it checks them (main.go:115-137). */
  datatype ArgError =
    | PathWithLocation             // main.go:115-117
    | DataAndInput                 // main.go:119-121
    | NoInputAccepted(action: string)     // main.go:124-126
    | KeyRequired(action: string)         // main.go:127-129
    | KeyNotAllowed(action: string)       // main.go:130-132
    | FilterNotSupported(action: string)  // main.go:134-137

  /** The actions that take a `key` flag (main.go:130). */
  const KeyActions: set<string> := {"get", "set", "delete"}

  /** The actions that take a `filter` flag (main.go:135). */
  const FilterActions: set<string> := {"buckets", "keys"}

  /**
   * The checks of main.go:111-140, where `hasData` says whether the call is
   * taken to carry a `data` argument.
   */
  function Check(c: Call, hasData: bool): Result<string, ArgError>
  {
    if c.path && (c.bucket || c.key) then Err(PathWithLocation)
    else if hasData && c.input then Err(DataAndInput)
    else if c.action != "set" && (hasData || c.input) then Err(NoInputAccepted(c.action))
    else if (c.action == "get" || c.action == "set") && !c.key then Err(KeyRequired(c.action))
    else if c.key && c.action !in KeyActions then Err(KeyNotAllowed(c.action))
    else if c.filter && c.action !in FilterActions then Err(FilterNotSupported(c.action))
    else Ok(c.action)
  }

  /**
   * `checkArgs(call)` as written: a `data` argument is recognised only when
   * there is exactly one. The call passes exactly when it breaks none of the
   * rules so read, and otherwise the first rule it breaks is reported.
   */
  function CheckArgsAsWritten(c: Call): (r: Result<string, ArgError>)
    ensures r.Ok? <==> Acceptable(c, c.dataArgs == 1)
    ensures r.Ok? ==> r.value == c.action
    ensures r.Err? ==> Violations(c, c.dataArgs == 1) != [] && r.error == Violations(c, c.dataArgs == 1)[0]
  {
    FirstViolationReported(c, c.dataArgs == 1);
    Check(c, c.dataArgs == 1)
  }

  /** `checkArgs(call)` as evidently intended: any `data` argument counts. */
  function CheckArgs(c: Call): (r: Result<string, ArgError>)
    ensures r.Ok? <==> Acceptable(c, c.dataArgs > 0)
    ensures r.Ok? ==> r.value == c.action
    ensures r.Err? ==> Violations(c, c.dataArgs > 0) != [] && r.error == Violations(c, c.dataArgs > 0)[0]
  {
    FirstViolationReported(c, c.dataArgs > 0);
    Check(c, c.dataArgs > 0)
  }

  /** Every rule the call breaks, in the order of main.go:115-137. */
  function Violations(c: Call, hasData: bool): seq<ArgError>
  {
    (if c.path && (c.bucket || c.key) then [PathWithLocation] else [])
    + (if hasData && c.input then [DataAndInput] else [])
    + (if c.action != "set" && (hasData || c.input) then [NoInputAccepted(c.action)] else [])
    + (if (c.action == "get" || c.action == "set") && !c.key then [KeyRequired(c.action)] else [])
    + (if c.key && c.action !in KeyActions then [KeyNotAllowed(c.action)] else [])
    + (if c.filter && c.action !in FilterActions then [FilterNotSupported(c.action)] else [])
  }

  /** A call that breaks none of the rules. */
  predicate Acceptable(c: Call, hasData: bool)
  {
    && !(c.path && (c.bucket || c.key))
    && !(hasData && c.input)
    && (c.action == "set" || (!hasData && !c.input))
    && (c.action in {"get", "set"} ==> c.key)
    && (c.key ==> c.action in KeyActions)
    && (c.filter ==> c.action in FilterActions)
  }

  /**
   * The checks run in a fixed order: the error is the first rule the call
   * breaks, and a call that breaks none gets its action back unchanged
   * (main.go:111-140).
   */
  lemma FirstViolationReported(c: Call, hasData: bool)
    ensures Check(c, hasData) == if Violations(c, hasData) == [] then Ok(c.action) else Err(Violations(c, hasData)[0])
    ensures Check(c, hasData).Ok? <==> Acceptable(c, hasData)
  {
  }

  /**
   * What an accepted call looks like: no `path` flag beside a location, data
   * or input only for `set` and never both, a key exactly for `get` and
   * `set` and possibly `delete`, and a filter only for a listing, which
   * then has no key.
   */
  lemma AcceptedCall(c: Call)
    requires CheckArgs(c).Ok?
    ensures CheckArgs(c) == Ok(c.action)
    ensures c.path ==> !c.bucket && !c.key
    ensures c.action != "set" ==> c.dataArgs == 0 && !c.input
    ensures !(c.dataArgs > 0 && c.input)
    ensures c.action in {"get", "set"} ==> c.key
    ensures c.key ==> c.action in {"get", "set", "delete"}
    ensures c.filter ==> c.action in {"buckets", "keys"} && !c.key
  {
    FirstViolationReported(c, c.dataArgs > 0);
  }

  /**
   * The check as written lets two or more `data` arguments through, for an
   * action that takes no data and, for `set`, beside pipeline input.
   */
  lemma ExtraDataSlipsThrough()
    ensures var get := Call(false, false, true, false, "get", 2, false);
      CheckArgsAsWritten(get) == Ok("get") && CheckArgs(get) == Err(NoInputAccepted("get"))
    ensures var put := Call(false, false, true, false, "set", 2, true);
      CheckArgsAsWritten(put) == Ok("set") && CheckArgs(put) == Err(DataAndInput)
  {
  }

  /** Both readings agree on every call with at most one `data` argument. */
  lemma ReadingsAgree(c: Call)
    requires c.dataArgs <= 1
    ensures CheckArgsAsWritten(c) == CheckArgs(c)
  {
  }

  // ---------------------------------------------------------------------------
  // boltCmdHandler
  // ---------------------------------------------------------------------------

  /** The eight actions of main.go:89-106. */
  datatype Action = Buckets | Keys | Get | Set | Add | Delete | Stat | Info

  /** The word that selects each action. */
  function ActionName(a: Action): string
  {
    match a
    case Buckets => "buckets"
    case Keys => "keys"
    case Get => "get"
    case Set => "set"
    case Add => "add"
    case Delete => "delete"
    case Stat => "stat"
    case Info => "info"
  }

  /** The `switch action` of main.go:89-108: the action a word selects, if any. */
  function ParseAction(word: string): Option<Action>
  {
    if word == "buckets" then Some(Buckets)
    else if word == "keys" then Some(Keys)
    else if word == "get" then Some(Get)
    else if word == "set" then Some(Set)
    else if word == "add" then Some(Add)
    else if word == "delete" then Some(Delete)
    else if word == "stat" then Some(Stat)
    else if word == "info" then Some(Info)
    else None
  }

  /** The words that name an action. */
  const ActionWords: set<string> := {"buckets", "keys", "get", "set", "add", "delete", "stat", "info"}

  /**
   * Every action is selected by its own word, a word selects at most the
   * action it names, and a word outside the eight is unknown (main.go:89-108).
   */
  lemma ActionWordsRoundTrip(a: Action, word: string)
    ensures ParseAction(ActionName(a)) == Some(a)
    ensures ParseAction(word).Some? ==> ActionName(ParseAction(word).value) == word
    ensures ParseAction(word).None? <==> word !in ActionWords
  {
  }

  /** How `boltCmdHandler` ends: an error, or the operation it hands the call to. */
  datatype Outcome =
    | InvalidArguments(args: ArgError)   // main.go:78-81
    | OpeningFailed(open: OpenError)     // main.go:83-86
    | UnknownAction(word: string)        // main.go:106-107
    | Dispatched(action: Action)         // main.go:90-105

  /**
   * What `boltCmdHandler` does once `checkArgs` has answered `checked`:
   * report its error, or open the database for the action word and
   * dispatch on that word (main.go:78-108).
   */
  function Dispatch(checked: Result<string, ArgError>, config: PluginConfig, status: FileStatus): Outcome
  {
    match checked
    case Err(e) => InvalidArguments(e)
    case Ok(word) =>
      match OpenDB(config, word, status)
      case Err(e) => OpeningFailed(e)
      case Ok(_) =>
        match ParseAction(word)
        case None => UnknownAction(word)
        case Some(a) => Dispatched(a)
  }

  /**
   * `boltCmdHandler(ctx, call)` (main.go:77-109) as written, on top of
   * `CheckArgsAsWritten`, given the plugin configuration and what `os.Stat`
   * says of the database file; opening the database file itself is not part
   * of this model. A call is dispatched exactly when the check as written
   * passes it, the database opens for its action and the action word is
   * one of the eight, and then to the action that word names; a database
   * that does not open gives its error, and any other word is unknown.
   */
  function Handle(c: Call, config: PluginConfig, status: FileStatus): (r: Outcome)
    ensures r.InvalidArguments? <==> CheckArgsAsWritten(c).Err?
    ensures r.Dispatched? <==>
      && CheckArgsAsWritten(c).Ok?
      && OpenDB(config, c.action, status).Ok?
      && c.action in ActionWords
    ensures r.Dispatched? ==> ActionName(r.action) == c.action
    ensures CheckArgsAsWritten(c).Ok? && OpenDB(config, c.action, status).Err? ==>
      r == OpeningFailed(OpenDB(config, c.action, status).error)
    ensures CheckArgsAsWritten(c).Ok? && OpenDB(config, c.action, status).Ok? && c.action !in ActionWords ==>
      r == UnknownAction(c.action)
  {
    FirstViolationReported(c, c.dataArgs == 1);
    ActionWordsRoundTrip(Get, c.action);
    Dispatch(CheckArgsAsWritten(c), config, status)
  }

  /** The handler as evidently intended: the same, on top of `CheckArgs`. */
  function HandleIntended(c: Call, config: PluginConfig, status: FileStatus): (r: Outcome)
    ensures r.InvalidArguments? <==> CheckArgs(c).Err?
    ensures r.Dispatched? <==>
      && CheckArgs(c).Ok?
      && OpenDB(config, c.action, status).Ok?
      && c.action in ActionWords
    ensures r.Dispatched? ==> ActionName(r.action) == c.action
    ensures CheckArgs(c).Ok? && OpenDB(config, c.action, status).Err? ==>
      r == OpeningFailed(OpenDB(config, c.action, status).error)
    ensures CheckArgs(c).Ok? && OpenDB(config, c.action, status).Ok? && c.action !in ActionWords ==>
      r == UnknownAction(c.action)
  {
    FirstViolationReported(c, c.dataArgs > 0);
    ActionWordsRoundTrip(Get, c.action);
    Dispatch(CheckArgs(c), config, status)
  }

  /**
   * A call reaches the operation of action `a` exactly when its arguments
   * pass the checks as written, the database can be opened for it and its
   * action word is `a`'s name.
   */
  lemma DispatchedExactly(c: Call, config: PluginConfig, status: FileStatus, a: Action)
    ensures Handle(c, config, status) == Dispatched(a) <==>
      && CheckArgsAsWritten(c).Ok?
      && OpenDB(config, c.action, status).Ok?
      && c.action == ActionName(a)
  {
    FirstViolationReported(c, c.dataArgs == 1);
    ActionWordsRoundTrip(a, c.action);
  }

  /** The same for the intended handler, with the intended check. */
  lemma IntendedDispatchedExactly(c: Call, config: PluginConfig, status: FileStatus, a: Action)
    ensures HandleIntended(c, config, status) == Dispatched(a) <==>
      && CheckArgs(c).Ok?
      && OpenDB(config, c.action, status).Ok?
      && c.action == ActionName(a)
  {
    FirstViolationReported(c, c.dataArgs > 0);
    ActionWordsRoundTrip(a, c.action);
  }

  /** The two handlers differ only on calls with two or more `data` arguments. */
  lemma HandlersAgree(c: Call, config: PluginConfig, status: FileStatus)
    requires c.dataArgs <= 1
    ensures Handle(c, config, status) == HandleIntended(c, config, status)
  {
    ReadingsAgree(c);
  }

  /**
   * The handler as written dispatches a `get` call that carries two `data`
   * arguments, which the intended handler refuses.
   */
  lemma ExtraDataDispatched(config: PluginConfig)
    requires Load(config).error.None?
    ensures var get := Call(false, false, true, false, "get", 2, false);
      Handle(get, config, Exists) == Dispatched(Get)
      && HandleIntended(get, config, Exists) == InvalidArguments(NoInputAccepted("get"))
  {
    ExtraDataSlipsThrough();
  }

  /**
   * An unknown action is reported only once the database is open: when
   * the file is missing the call fails before its action word is looked at
   * (main.go:83-86, 106-107; config.go:99-107).
   */
  lemma UnknownActionNeedsDatabase(c: Call, config: PluginConfig)
    ensures !Handle(c, config, NotExist).UnknownAction?
    ensures !HandleIntended(c, config, NotExist).UnknownAction?
  {
  }

  /**
   * A `get` call names a key and carries no pipeline input; as written it
   * may still carry data, but never exactly one `data` argument
   * (main.go:119-129).
   */
  lemma GetNeedsKey(c: Call, config: PluginConfig, status: FileStatus)
    requires Handle(c, config, status) == Dispatched(Get)
    ensures c.key && !c.input && c.dataArgs != 1
  {
    DispatchedExactly(c, config, status, Get);
    FirstViolationReported(c, c.dataArgs == 1);
  }

  /** With the intended check a `get` call carries neither data nor input. */
  lemma IntendedGetNeedsKey(c: Call, config: PluginConfig, status: FileStatus)
    requires HandleIntended(c, config, status) == Dispatched(Get)
    ensures c.key && c.dataArgs == 0 && !c.input
  {
    IntendedDispatchedExactly(c, config, status, Get);
    AcceptedCall(c);
  }
}

/**
 * The check-and-notify pipeline and the notification table it reads and
 * writes (in_stock_notifier/in_stock_notifier.py).
 *
 * The DynamoDB table is the `table` field of the notifier, a map from product
 * key to record. The page fetch, the SES reply and the environment are inputs.
 * A ghost `log` records the externally visible steps (page requests, table
 * lookups, calls to send, SES requests, marks) so that the rules about which
 * step may follow which can be stated.
 */
module Notifier {
  import opened Wrappers
  import opened Stores

  // ---------------------------------------------------------------------------
  // safeget: a nested dictionary lookup.
  // ---------------------------------------------------------------------------

  /** The values a decoded SES reply is made of. */
  datatype Value =
    | Dict(entries: map<string, Value>)
    | Int(n: int)
    | Str(s: string)
    | Null

  /** What `safeget` does: return a value, return None, or raise TypeError. */
  datatype GetResult = Found(value: Value) | NoneResult | RaisesTypeError

  /**
   * Following `keys` from `v`, one subscript per key: a missing key gives None
   * (the KeyError is caught), subscripting a non-dict raises TypeError.
   */
  function Dig(v: Value, keys: seq<string>): GetResult
    decreases |keys|
  {
    if keys == [] then Found(v)
    else
      match v
      case Dict(m) => if keys[0] in m then Dig(m[keys[0]], keys[1..]) else NoneResult
      case _ => RaisesTypeError
  }

  /** `safeget(dct, *keys)`: None for a non-dict argument, otherwise `Dig`. */
  function NestedGet(dct: Value, keys: seq<string>): GetResult
  {
    if dct.Dict? then Dig(dct, keys) else NoneResult
  }

  /** `safeget` as the source writes it: a type test, then a loop that replaces `dct` key by key. */
  method SafeGet(dct: Value, keys: seq<string>) returns (r: GetResult)
    ensures r == NestedGet(dct, keys)
  {
    if !dct.Dict? {
      return NoneResult;
    }
    var cur := dct;
    for i := 0 to |keys|
      invariant Dig(cur, keys[i..]) == Dig(dct, keys)
    {
      match cur {
        case Dict(m) =>
          if keys[i] !in m {
            return NoneResult;
          }
          cur := m[keys[i]];
        case _ =>
          return RaisesTypeError;
      }
    }
    assert keys[|keys|..] == [];
    return Found(cur);
  }

  // ---------------------------------------------------------------------------
  // send_notification: configuration and SES reply.
  // ---------------------------------------------------------------------------

  /** The process environment. */
  type Env = map<string, string>

  /** `os.environ.get(name)` is truthy: present and non-empty. */
  predicate IsSet(env: Env, name: string)
  {
    name in env && env[name] != ""
  }

  function LowerChar(c: char): char
  {
    if 'A' <= c <= 'Z' then (c as int + 32) as char else c
  }

  /** `str.lower()` on ASCII letters; every other character is kept. */
  function LowerAscii(s: string): (r: string)
    ensures |r| == |s|
    ensures forall i :: 0 <= i < |s| ==> r[i] == LowerChar(s[i])
  {
    if s == [] then [] else [LowerChar(s[0])] + LowerAscii(s[1..])
  }

  /** DEV is set and lower-cases to "true": the dry-run mode. */
  predicate DevMode(env: Env)
  {
    IsSet(env, "DEV") && LowerAscii(env["DEV"]) == "true"
  }

  /** The path of the HTTP status inside an SES reply. */
  const StatusPath: seq<string> := ["ResponseMetadata", "HTTPStatusCode"]

  /** What `ses.send_templated_email` does: return a reply, or raise. */
  datatype SesReply = Reply(response: Value) | SesRaises

  /** What `send_notification` does: return True, return False, or raise. */
  datatype Delivery = Delivered | NotDelivered | DeliveryRaised

  /** `send_notification` gets as far as calling SES: both addresses are set and DEV is not true. */
  predicate ReachesSes(env: Env)
  {
    IsSet(env, "EMAIL_FROM") && IsSet(env, "EMAIL_TO") && !DevMode(env)
  }

  /** The decision `send_notification` makes from the environment and the SES reply. */
  function SendDecision(env: Env, reply: SesReply): (d: Delivery)
    ensures d == Delivered <==>
              IsSet(env, "EMAIL_FROM") && IsSet(env, "EMAIL_TO") &&
              (DevMode(env) || (reply.Reply? && NestedGet(reply.response, StatusPath) == Found(Int(200))))
    ensures d == DeliveryRaised <==>
              ReachesSes(env) && (reply.SesRaises? || NestedGet(reply.response, StatusPath) == RaisesTypeError)
    ensures !IsSet(env, "EMAIL_FROM") || !IsSet(env, "EMAIL_TO") ==> d == NotDelivered
  {
    if !IsSet(env, "EMAIL_FROM") then NotDelivered
    else if !IsSet(env, "EMAIL_TO") then NotDelivered
    else if DevMode(env) then Delivered
    else
      match reply
      case SesRaises => DeliveryRaised
      case Reply(response) =>
        match NestedGet(response, StatusPath)
        case Found(status) => if status == Int(200) then Delivered else NotDelivered
        case NoneResult => NotDelivered
        case RaisesTypeError => DeliveryRaised
  }

  // ---------------------------------------------------------------------------
  // The notification table.
  // ---------------------------------------------------------------------------

  /** A row of the notification table; `isSent` defaults to false. */
  datatype Record = Record(productName: string, url: string, isSent: bool)

  /** The notification table: product key to record. */
  type Table = map<string, Record>

  /** The answer of `has_already_notified` and the table it leaves. */
  datatype Claimed = Claimed(wasSent: bool, table: Table)

  /**
   * `has_already_notified` on the table: the stored `is_sent` when the key is
   * present; otherwise a new unsent record for the product, and false.
   */
  function Claim(t: Table, p: Product, key: string): (c: Claimed)
    ensures c.wasSent <==> key in t && t[key].isSent
    ensures c.table.Keys == t.Keys + {key}
    ensures forall k :: k in t ==> c.table[k] == t[k]
    ensures key !in t ==> c.table[key] == Record(p.name, p.url, false)
  {
    if key in t then Claimed(t[key].isSent, t)
    else Claimed(false, t[key := Record(p.name, p.url, false)])
  }

  /** `update_notification_table` on the table: the record of `key` becomes sent. */
  function MarkSent(t: Table, key: string): (r: Table)
    requires key in t
    ensures r.Keys == t.Keys
    ensures r[key] == Record(t[key].productName, t[key].url, true)
    ensures forall k :: k in t && k != key ==> r[k] == t[k]
  {
    t[key := t[key].(isSent := true)]
  }

  // ---------------------------------------------------------------------------
  // check_stock_and_notify as a function of the table and the inputs.
  // ---------------------------------------------------------------------------

  /** How one product's check ends. */
  datatype Outcome =
    | Unsupported             // no store interface for the product's domain
    | UnexpectedFqdnSkipped   // is_in_stock raised UnexpectedFQDN
    | LoadFailed              // is_in_stock raised ClientResponseError
    | NotInStock
    | AlreadyNotified
    | SendFailed              // send_notification returned False
    | Sent                    // delivered, then marked
    | ConnectionRaised        // the request raised something other than ClientResponseError
    | SendRaised              // send_notification raised

  /** The externally visible steps of a check. */
  datatype Event =
    | Fetch(url: string)   // the GET request for a product page
    | Lookup(key: string)  // has_already_notified
    | Send(key: string)    // send_notification called
    | SesCall(key: string) // the SES request made inside send_notification
    | Mark(key: string)    // update_notification_table

  /** What one product's check sees of the world. */
  datatype CheckInput = CheckInput(product: Product, fetched: FetchOutcome, env: Env, reply: SesReply)

  /** How a check ends, the table it leaves and the steps it takes. */
  datatype CheckResult = CheckResult(outcome: Outcome, table: Table, events: seq<Event>)

  /** The steps of `send_notification`. */
  function SendEvents(key: string, env: Env): seq<Event>
  {
    [Send(key)] + (if ReachesSes(env) then [SesCall(key)] else [])
  }

  /**
   * The in-stock branch of `check_stock_and_notify`: stop if a notification
   * was already sent, otherwise send one and mark the record only if it was
   * delivered.
   */
  function NotifyInStock(t: Table, key: string, p: Product, env: Env, reply: SesReply): CheckResult
  {
    var claimed := Claim(t, p, key);
    if claimed.wasSent then CheckResult(AlreadyNotified, claimed.table, [Lookup(key)])
    else
      var sent := [Lookup(key)] + SendEvents(key, env);
      match SendDecision(env, reply)
      case Delivered => CheckResult(Sent, MarkSent(claimed.table, key), sent + [Mark(key)])
      case NotDelivered => CheckResult(SendFailed, claimed.table, sent)
      case DeliveryRaised => CheckResult(SendRaised, claimed.table, sent)
  }

  /** Appending is associative; stated once so that the log equations are one step each. */
  lemma AppendAssoc<T>(a: seq<T>, b: seq<T>, c: seq<T>)
    ensures a + (b + c) == (a + b) + c
  {
  }

  /** The outcomes reached by calling `send_notification`. */
  predicate CalledSend(outcome: Outcome)
  {
    outcome == Sent || outcome == SendFailed || outcome == SendRaised
  }

  /** How a check ends when `is_in_stock` raised or answered false. */
  function VerdictOutcome(verdict: Result<bool, StoreError>): Outcome
  {
    match verdict
    case Failure(UnexpectedFqdn) => UnexpectedFqdnSkipped
    case Failure(ClientResponseError(_)) => LoadFailed
    case Failure(ClientConnectionError) => ConnectionRaised
    case Success(_) => NotInStock
  }

  /** `check_stock_and_notify`, one early return per branch. */
  function CheckProduct(t: Table, md5: string -> string, input: CheckInput): CheckResult
  {
    var p := input.product;
    if p.Fqdn() !in Registry then CheckResult(Unsupported, t, [])
    else CheckRegistered(t, md5, input, Registry[p.Fqdn()])
  }

  /** `check_stock_and_notify` once the store interface is found. */
  function CheckRegistered(t: Table, md5: string -> string, input: CheckInput, iface: StoreInterface): CheckResult
  {
    var p := input.product;
    var fetches := if Requests(iface, p) then [Fetch(p.url)] else [];
    var verdict := IsInStock(iface, p, input.fetched);
    if verdict.Failure? || !verdict.value then CheckResult(VerdictOutcome(verdict), t, fetches)
    else
      var n := NotifyInStock(t, p.Hash(md5), p, input.env, input.reply);
      CheckResult(n.outcome, n.table, fetches + n.events)
  }

  /** The outcomes, final table and steps of checking several products one after another. */
  datatype RunResult = RunResult(outcomes: seq<Outcome>, table: Table, events: seq<Event>)

  /** Checking products one after another with a given per-product step. */
  function RunSteps(step: (Table, CheckInput) -> CheckResult, t: Table, inputs: seq<CheckInput>): (r: RunResult)
    ensures |r.outcomes| == |inputs|
    decreases |inputs|
  {
    if inputs == [] then RunResult([], t, [])
    else
      var c := step(t, inputs[0]);
      var rest := RunSteps(step, c.table, inputs[1..]);
      RunResult([c.outcome] + rest.outcomes, rest.table, c.events + rest.events)
  }

  /** Running `a` then `b` is running `a + b`. */
  lemma {:induction false} RunStepsAppend(step: (Table, CheckInput) -> CheckResult, t: Table,
                                          a: seq<CheckInput>, b: seq<CheckInput>)
    ensures var ra := RunSteps(step, t, a);
            var rb := RunSteps(step, ra.table, b);
            RunSteps(step, t, a + b) == RunResult(ra.outcomes + rb.outcomes, rb.table, ra.events + rb.events)
    decreases |a|
  {
    if a == [] {
      assert a + b == b;
    } else {
      var c := step(t, a[0]);
      assert (a + b)[0] == a[0];
      assert (a + b)[1..] == a[1..] + b;
      RunStepsAppend(step, c.table, a[1..], b);
      var rest := RunSteps(step, c.table, a[1..]);
      var rb := RunSteps(step, rest.table, b);
      assert [c.outcome] + (rest.outcomes + rb.outcomes) == ([c.outcome] + rest.outcomes) + rb.outcomes;
      assert c.events + (rest.events + rb.events) == (c.events + rest.events) + rb.events;
    }
  }

  /** Running `a` and then one more input. */
  lemma RunStepsSnoc(step: (Table, CheckInput) -> CheckResult, t: Table, a: seq<CheckInput>, x: CheckInput)
    ensures var ra := RunSteps(step, t, a);
            var c := step(ra.table, x);
            RunSteps(step, t, a + [x]) == RunResult(ra.outcomes + [c.outcome], c.table, ra.events + c.events)
  {
    RunStepsAppend(step, t, a, [x]);
    var c := step(RunSteps(step, t, a).table, x);
    assert RunSteps(step, c.table, []) == RunResult([], c.table, []);
    assert [c.outcome] + [] == [c.outcome];
    assert c.events + [] == c.events;
  }

  /** The per-product step of a run: `check_stock_and_notify` with the given digest. */
  function CheckStep(md5: string -> string): (Table, CheckInput) -> CheckResult
  {
    (t: Table, input: CheckInput) => CheckProduct(t, md5, input)
  }

  /** `check_stocks`, with the products checked in order. */
  function Run(t: Table, md5: string -> string, inputs: seq<CheckInput>): RunResult
  {
    RunSteps(CheckStep(md5), t, inputs)
  }

  // ---------------------------------------------------------------------------
  // The notifier.
  // ---------------------------------------------------------------------------

  /** `InStockNotifier`: the notification table, the lazily built SES client and the step log. */
  class InStockNotifier {
    /** The md5 hex digest the table keys are made with. */
    const md5: string -> string
    /** The notification table's contents. */
    var table: Table
    /** `self.ses` has been built. */
    var sesClient: bool
    /** How many SES clients have been built. */
    ghost var sesClientsBuilt: nat
    /** The steps taken so far. */
    ghost var log: seq<Event>

    /** The SES client is built at most once, and exists exactly when it has been built. */
    ghost predicate Valid()
      reads this
    {
      sesClientsBuilt == if sesClient then 1 else 0
    }

    /** `__init__`: an existing (or freshly created) table and no SES client yet. */
    constructor (md5: string -> string, table: Table)
      ensures Valid()
      ensures this.md5 == md5 && this.table == table
      ensures !sesClient && log == []
    {
      this.md5 := md5;
      this.table := table;
      sesClient := false;
      sesClientsBuilt := 0;
      log := [];
    }

    /**
     * `send_notification`: false when an address is missing, true without
     * calling SES in dry-run mode, otherwise build the client if need be, call
     * SES and report whether the reply's status is 200.
     */
    method SendNotification(product: Product, env: Env, reply: SesReply) returns (d: Delivery)
      requires Valid()
      modifies this`sesClient, this`sesClientsBuilt, this`log
      ensures Valid()
      ensures d == SendDecision(env, reply)
      ensures sesClient == (old(sesClient) || ReachesSes(env))
      ensures sesClientsBuilt == old(sesClientsBuilt) + (if !old(sesClient) && ReachesSes(env) then 1 else 0)
      ensures log == old(log) + SendEvents(product.Hash(md5), env)
    {
      var key := product.Hash(md5);
      log := log + [Send(key)];
      if !IsSet(env, "EMAIL_FROM") {
        return NotDelivered;
      }
      if !IsSet(env, "EMAIL_TO") {
        return NotDelivered;
      }
      if DevMode(env) {
        return Delivered;
      }
      if !sesClient {
        sesClient := true;
        sesClientsBuilt := sesClientsBuilt + 1;
      }
      log := log + [SesCall(key)];
      match reply {
        case SesRaises =>
          return DeliveryRaised;
        case Reply(response) =>
          var status := SafeGet(response, StatusPath);
          match status {
            case Found(v) =>
              d := if v == Int(200) then Delivered else NotDelivered;
            case NoneResult =>
              d := NotDelivered;
            case RaisesTypeError =>
              d := DeliveryRaised;
          }
      }
    }

    /**
     * `has_already_notified`: the stored `is_sent`, or, for a product not yet
     * in the table, save a new unsent record and answer false.
     */
    method HasAlreadyNotified(product: Product) returns (sent: bool)
      requires Valid()
      modifies this`table, this`log
      ensures Valid()
      ensures Claimed(sent, table) == Claim(old(table), product, product.Hash(md5))
      ensures log == old(log) + [Lookup(product.Hash(md5))]
    {
      var key := product.Hash(md5);
      log := log + [Lookup(key)];
      if key in table {
        return table[key].isSent;
      }
      table := table[key := Record(product.name, product.url, false)];
      return false;
    }

    /** `update_notification_table`: set `is_sent` on the product's record, which `get` requires to exist. */
    method UpdateNotificationTable(product: Product)
      requires Valid()
      requires product.Hash(md5) in table
      modifies this`table, this`log
      ensures Valid()
      ensures table == MarkSent(old(table), product.Hash(md5))
      ensures log == old(log) + [Mark(product.Hash(md5))]
    {
      var key := product.Hash(md5);
      var item := table[key];
      table := table[key := item.(isSent := true)];
      log := log + [Mark(key)];
    }

    /**
     * `check_stock_and_notify`: resolve the store interface, ask it whether
     * the product is in stock, and when it is and no notification has been
     * sent, send one and record that it was sent.
     */
    method CheckStockAndNotify(product: Product, fetched: FetchOutcome, env: Env, reply: SesReply)
      returns (outcome: Outcome)
      requires Valid()
      modifies this`table, this`sesClient, this`sesClientsBuilt, this`log
      ensures Valid()
      ensures var c := CheckProduct(old(table), md5, CheckInput(product, fetched, env, reply));
              outcome == c.outcome && table == c.table && log == old(log) + c.events &&
              sesClient == (old(sesClient) || (CalledSend(outcome) && ReachesSes(env)))
    {
      var fqdn := product.Fqdn();
      if fqdn !in Registry {
        return Unsupported;
      }
      var iface := Registry[fqdn];
      var fetches: seq<Event> := if Requests(iface, product) then [Fetch(product.url)] else [];
      ghost var log0 := log;
      log := log + fetches;
      var verdict := IsInStock(iface, product, fetched);
      if verdict.Failure? || !verdict.value {
        return VerdictOutcome(verdict);
      }
      outcome := NotifyIfNew(product, env, reply);
      AppendAssoc(log0, fetches, NotifyInStock(old(table), product.Hash(md5), product, env, reply).events);
    }

    /** The `if in_stock:` block of `check_stock_and_notify`. */
    method NotifyIfNew(product: Product, env: Env, reply: SesReply) returns (outcome: Outcome)
      requires Valid()
      modifies this`table, this`sesClient, this`sesClientsBuilt, this`log
      ensures Valid()
      ensures var n := NotifyInStock(old(table), product.Hash(md5), product, env, reply);
              outcome == n.outcome && table == n.table && log == old(log) + n.events &&
              sesClient == (old(sesClient) || (CalledSend(outcome) && ReachesSes(env)))
    {
      ghost var log0, key := log, product.Hash(md5);
      var notified := HasAlreadyNotified(product);
      if notified {
        return AlreadyNotified;
      }
      var delivery := SendNotification(product, env, reply);
      AppendAssoc(log0, [Lookup(key)], SendEvents(key, env));
      if delivery == DeliveryRaised {
        return SendRaised;
      }
      if delivery == NotDelivered {
        return SendFailed;
      }
      UpdateNotificationTable(product);
      AppendAssoc(log0, [Lookup(key)] + SendEvents(key, env), [Mark(key)]);
      return Sent;
    }

    /** `check_stocks`: every product's check, one after another. */
    method CheckStocks(inputs: seq<CheckInput>) returns (outcomes: seq<Outcome>)
      requires Valid()
      modifies this`table, this`sesClient, this`sesClientsBuilt, this`log
      ensures Valid()
      ensures var r := Run(old(table), md5, inputs);
              outcomes == r.outcomes && table == r.table && log == old(log) + r.events
    {
      outcomes := [];
      ghost var start := table;
      ghost var log0 := log;
      for i := 0 to |inputs|
        invariant Valid()
        invariant var r := Run(start, md5, inputs[..i]);
                  outcomes == r.outcomes && table == r.table && log == log0 + r.events
      {
        var input := inputs[i];
        ghost var before := Run(start, md5, inputs[..i]);
        var outcome := CheckStockAndNotify(input.product, input.fetched, input.env, input.reply);
        ghost var c := CheckStep(md5)(before.table, input);
        RunStepsSnoc(CheckStep(md5), start, inputs[..i], input);
        AppendAssoc(log0, before.events, c.events);
        assert inputs[..i + 1] == inputs[..i] + [input];
        outcomes := outcomes + [outcome];
      }
      assert inputs[..|inputs|] == inputs;
    }
  }
}

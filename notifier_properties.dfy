/**
 * What the check-and-notify pipeline promises: `safeget` and the sending
 * decision, one product's check, and a run of checks over a table that
 * persists from one check to the next.
 */
module NotifierProperties {
  import opened Wrappers
  import opened Stores
  import opened Notifier

  // ---------------------------------------------------------------------------
  // safeget
  // ---------------------------------------------------------------------------

  /** Following `a + b` is following `a`, then `b` from wherever `a` led. */
  lemma {:induction false} DigAppend(v: Value, a: seq<string>, b: seq<string>)
    ensures Dig(v, a + b) == match Dig(v, a) { case Found(w) => Dig(w, b) case other => other }
    decreases |a|
  {
    if a == [] {
      assert a + b == b;
    } else {
      assert (a + b)[0] == a[0];
      assert (a + b)[1..] == a[1..] + b;
      match v {
        case Dict(m) =>
          if a[0] in m {
            DigAppend(m[a[0]], a[1..], b);
          }
        case _ =>
      }
    }
  }

  /** A key missing anywhere along the path makes `safeget` give None. */
  lemma MissingKeyOnPath(dct: Value, keys: seq<string>, i: nat)
    requires dct.Dict? && i < |keys|
    requires Dig(dct, keys[..i]).Found? && Dig(dct, keys[..i]).value.Dict?
    requires keys[i] !in Dig(dct, keys[..i]).value.entries
    ensures NestedGet(dct, keys) == NoneResult
  {
    DigAppend(dct, keys[..i], keys[i..]);
    assert keys[..i] + keys[i..] == keys;
  }

  /** The nested dicts, one per key, that hold `leaf` at the end of `keys`. */
  function Nest(keys: seq<string>, leaf: Value): Value
  {
    if keys == [] then leaf else Dict(map[keys[0] := Nest(keys[1..], leaf)])
  }

  /** `safeget` finds what was nested under the same keys. */
  lemma {:induction false} NestedGetOfNest(keys: seq<string>, leaf: Value)
    requires keys != []
    ensures NestedGet(Nest(keys, leaf), keys) == Found(leaf)
  {
    DigOfNest(keys, leaf);
  }

  lemma {:induction false} DigOfNest(keys: seq<string>, leaf: Value)
    ensures Dig(Nest(keys, leaf), keys) == Found(leaf)
  {
    if keys != [] {
      DigOfNest(keys[1..], leaf);
    }
  }

  /** Subscripting something that is not a dict raises TypeError rather than giving None. */
  lemma NonDictOnPathRaises(dct: Value, keys: seq<string>, i: nat)
    requires dct.Dict? && i < |keys|
    requires Dig(dct, keys[..i]).Found? && !Dig(dct, keys[..i]).value.Dict?
    ensures NestedGet(dct, keys) == RaisesTypeError
  {
    DigAppend(dct, keys[..i], keys[i..]);
    assert keys[..i] + keys[i..] == keys;
  }

  // ---------------------------------------------------------------------------
  // send_notification
  // ---------------------------------------------------------------------------

  /** DEV turns on dry-run mode exactly for the 16 spellings of "true" in any letter case. */
  lemma DevModeSpellings(env: Env)
    ensures DevMode(env) <==>
              "DEV" in env && |env["DEV"]| == 4 &&
              (env["DEV"][0] == 't' || env["DEV"][0] == 'T') &&
              (env["DEV"][1] == 'r' || env["DEV"][1] == 'R') &&
              (env["DEV"][2] == 'u' || env["DEV"][2] == 'U') &&
              (env["DEV"][3] == 'e' || env["DEV"][3] == 'E')
  {
    if "DEV" in env {
      var v := env["DEV"];
      var l := LowerAscii(v);
      if |v| == 4 {
        assert l == "true" <==> l[0] == 't' && l[1] == 'r' && l[2] == 'u' && l[3] == 'e';
      }
    }
  }

  /**
   * Whatever else an SES reply carries, its `ResponseMetadata.HTTPStatusCode`
   * decides: 200 is a delivery, any other status is not.
   */
  lemma SesStatusDecides(env: Env, m: map<string, Value>, meta: map<string, Value>, status: int)
    requires ReachesSes(env)
    requires "ResponseMetadata" in m && m["ResponseMetadata"] == Dict(meta)
    requires "HTTPStatusCode" in meta && meta["HTTPStatusCode"] == Int(status)
    ensures SendDecision(env, Reply(Dict(m))) == (if status == 200 then Delivered else NotDelivered)
  {
    assert Dig(Dict(m), StatusPath) == Found(Int(status));
  }

  /**
   * A reply whose `ResponseMetadata` is present but not a dict makes `safeget`
   * raise TypeError, and `send_notification` with it.
   */
  lemma MalformedMetadataRaises(env: Env, m: map<string, Value>)
    requires ReachesSes(env)
    requires "ResponseMetadata" in m && !m["ResponseMetadata"].Dict?
    ensures SendDecision(env, Reply(Dict(m))) == DeliveryRaised
  {
    var reply := Dict(m);
    assert StatusPath[..1] == ["ResponseMetadata"];
    assert Dig(reply, StatusPath[..1]) == Found(m["ResponseMetadata"]);
    NonDictOnPathRaises(reply, StatusPath, 1);
  }

  // ---------------------------------------------------------------------------
  // has_already_notified and update_notification_table
  // ---------------------------------------------------------------------------

  /** Two lookups of a fresh key both answer false and leave exactly one new record. */
  lemma ClaimTwice(t: Table, p: Product, key: string)
    requires key !in t
    ensures var first := Claim(t, p, key);
            var second := Claim(first.table, p, key);
            !first.wasSent && !second.wasSent && second.table == first.table &&
            |second.table.Keys| == |t.Keys| + 1
  {
    var first := Claim(t, p, key);
    assert first.table.Keys == t.Keys + {key};
    assert |t.Keys + {key}| == |t.Keys| + 1;
  }

  // ---------------------------------------------------------------------------
  // One product's check
  // ---------------------------------------------------------------------------

  /** Every row of `t` is still in `t2` with the same name and URL, and a sent row stays sent. */
  predicate Extends(t: Table, t2: Table)
  {
    forall k :: k in t ==>
      k in t2 && t2[k].productName == t[k].productName && t2[k].url == t[k].url && (t[k].isSent ==> t2[k].isSent)
  }

  /** The GET request a check makes: one for a registered domain, none otherwise. */
  function Fetches(p: Product): seq<Event>
  {
    if p.Fqdn() in Registry then [Fetch(p.url)] else []
  }

  /**
   * A product whose domain has no store interface is skipped with no request,
   * no table access and no send; any other product gets its page requested first.
   */
  lemma UnsupportedIsSkipped(t: Table, md5: string -> string, input: CheckInput)
    ensures var c := CheckProduct(t, md5, input);
            (c.outcome == Unsupported <==> input.product.Fqdn() !in Registry) &&
            (c.outcome == Unsupported ==> c.table == t && c.events == []) &&
            (input.product.Fqdn() in Registry ==> |c.events| > 0 && c.events[0] == Fetch(input.product.url))
  {
    var p := input.product;
    if p.Fqdn() in Registry {
      RegisteredProductPassesGuard(p, input.fetched);
    }
  }

  /** The registry is looked up with the same netloc the guard checks, so the guard never fails. */
  lemma UnexpectedFqdnUnreachable(t: Table, md5: string -> string, input: CheckInput)
    ensures CheckProduct(t, md5, input).outcome != UnexpectedFqdnSkipped
  {
    if input.product.Fqdn() in Registry {
      RegisteredProductPassesGuard(input.product, input.fetched);
    }
  }

  /**
   * A check that ends before the in-stock branch leaves the table as it was
   * and does nothing but request the page. Stated from the inputs: an
   * unregistered domain, a connection failure, a status of 400 or more, or a
   * page the classifier finds out of stock; and from how the check ends.
   */
  lemma EarlyExitsChangeNothing(t: Table, md5: string -> string, input: CheckInput)
    ensures var p := input.product;
            var c := CheckProduct(t, md5, input);
            p.Fqdn() !in Registry ==> c == CheckResult(Unsupported, t, [])
    ensures var p := input.product;
            var c := CheckProduct(t, md5, input);
            p.Fqdn() in Registry && IsInStock(Registry[p.Fqdn()], p, input.fetched) != Success(true) ==>
              c == CheckResult(VerdictOutcome(IsInStock(Registry[p.Fqdn()], p, input.fetched)), t, [Fetch(p.url)])
    ensures var p := input.product;
            var c := CheckProduct(t, md5, input);
            p.Fqdn() in Registry && input.fetched.ConnectionFailure? ==>
              c == CheckResult(ConnectionRaised, t, [Fetch(p.url)])
    ensures var p := input.product;
            var c := CheckProduct(t, md5, input);
            p.Fqdn() in Registry && input.fetched.Response? && input.fetched.status >= 400 ==>
              c == CheckResult(LoadFailed, t, [Fetch(p.url)])
    ensures var p := input.product;
            var c := CheckProduct(t, md5, input);
            p.Fqdn() in Registry && input.fetched.Response? && input.fetched.status < 400 &&
            !Registry[p.Fqdn()].Classify(input.fetched.body) ==>
              c == CheckResult(NotInStock, t, [Fetch(p.url)])
    ensures var c := CheckProduct(t, md5, input);
            c.outcome in {Unsupported, UnexpectedFqdnSkipped, LoadFailed, ConnectionRaised, NotInStock} ==>
              c.table == t && c.events == Fetches(input.product)
  {
    var p := input.product;
    if p.Fqdn() in Registry {
      RegisteredProductPassesGuard(p, input.fetched);
    }
  }

  /**
   * A registered product whose page loads with a status below 400 and shows
   * it in stock goes on to the table lookup: the check takes the request,
   * then the lookup, and ends in one of the in-stock outcomes.
   */
  lemma InStockReachesLookup(t: Table, md5: string -> string, input: CheckInput)
    requires input.product.Fqdn() in Registry
    requires input.fetched.Response? && input.fetched.status < 400
    requires Registry[input.product.Fqdn()].Classify(input.fetched.body)
    ensures var p := input.product;
            var c := CheckProduct(t, md5, input);
            c.outcome in {AlreadyNotified, SendFailed, Sent, SendRaised} &&
            |c.events| >= 2 && c.events[..2] == [Fetch(p.url), Lookup(p.Hash(md5))]
  {
    RegisteredProductPassesGuard(input.product, input.fetched);
  }

  /**
   * The steps of a check, by how it ends: the page request alone when it ends
   * early, then the table lookup, then the call to send (with the SES request
   * when configured), then the mark.
   */
  lemma CheckEvents(t: Table, md5: string -> string, input: CheckInput)
    ensures var c := CheckProduct(t, md5, input);
            var key := input.product.Hash(md5);
            var sent := Fetches(input.product) + [Lookup(key)] + SendEvents(key, input.env);
            c.events == (match c.outcome
                         case AlreadyNotified => Fetches(input.product) + [Lookup(key)]
                         case SendFailed => sent
                         case SendRaised => sent
                         case Sent => sent + [Mark(key)]
                         case _ => Fetches(input.product))
  {
    var p := input.product;
    if p.Fqdn() in Registry {
      RegisteredProductPassesGuard(p, input.fetched);
      var key := p.Hash(md5);
      var e := [Lookup(key)] + SendEvents(key, input.env);
      AppendAssoc([Fetch(p.url)], e, [Mark(key)]);
    }
  }

  /**
   * The in-stock branch, from the inputs: a registered product found in stock
   * stops at the lookup exactly when its row is already marked sent;
   * otherwise `send_notification` is called, and how the check ends is what
   * sending gives.
   */
  lemma InStockBranch(t: Table, md5: string -> string, input: CheckInput)
    ensures var c := CheckProduct(t, md5, input);
            var p := input.product;
            var key := p.Hash(md5);
            p.Fqdn() in Registry && IsInStock(Registry[p.Fqdn()], p, input.fetched) == Success(true) ==>
              (c.outcome == AlreadyNotified <==> key in t && t[key].isSent)
    ensures var c := CheckProduct(t, md5, input);
            var p := input.product;
            var key := p.Hash(md5);
            p.Fqdn() in Registry && IsInStock(Registry[p.Fqdn()], p, input.fetched) == Success(true) &&
            !(key in t && t[key].isSent) ==>
              Send(key) in c.events &&
              c.outcome == (match SendDecision(input.env, input.reply)
                            case Delivered => Sent
                            case NotDelivered => SendFailed
                            case DeliveryRaised => SendRaised)
  {
    var p := input.product;
    if p.Fqdn() in Registry {
      RegisteredProductPassesGuard(p, input.fetched);
      var key := p.Hash(md5);
      assert Send(key) in [Lookup(key)] + SendEvents(key, input.env);
    }
  }

  /**
   * A product reported in stock is sent exactly when its record is not marked
   * sent and delivery succeeds; only then is the record marked, as the last step.
   */
  lemma SentIffDelivered(t: Table, md5: string -> string, input: CheckInput)
    ensures var c := CheckProduct(t, md5, input);
            var p := input.product;
            var key := p.Hash(md5);
            (c.outcome == Sent <==>
               p.Fqdn() in Registry && IsInStock(Registry[p.Fqdn()], p, input.fetched) == Success(true) &&
               !(key in t && t[key].isSent) && SendDecision(input.env, input.reply) == Delivered) &&
            (c.outcome == Sent ==>
               c.table == MarkSent(Claim(t, p, key).table, key) && c.table[key].isSent)
  {
    if input.product.Fqdn() in Registry {
      RegisteredProductPassesGuard(input.product, input.fetched);
    }
  }

  /** A product whose record is marked sent is not sent again, and its check changes no row. */
  lemma MarkedNeverResent(t: Table, md5: string -> string, input: CheckInput)
    requires var key := input.product.Hash(md5); key in t && t[key].isSent
    ensures var c := CheckProduct(t, md5, input);
            var key := input.product.Hash(md5);
            c.table == t && Send(key) !in c.events && Mark(key) !in c.events &&
            !CalledSend(c.outcome)
  {
    var c := CheckProduct(t, md5, input);
    assert Send(input.product.Hash(md5)) !in c.events;
  }

  /** A check sends for and marks only its own product's key. */
  lemma OtherKeysNotSent(t: Table, md5: string -> string, input: CheckInput, k: string)
    requires k != input.product.Hash(md5)
    ensures var c := CheckProduct(t, md5, input);
            Send(k) !in c.events && Mark(k) !in c.events
  {
    CheckEvents(t, md5, input);
    var key := input.product.Hash(md5);
    var early := Fetches(input.product);
    var sent := early + [Lookup(key)] + SendEvents(key, input.env);
    assert Send(k) !in early && Mark(k) !in early;
    assert Send(k) !in sent && Mark(k) !in sent;
  }

  /** A row marked sent keeps its record through any check, and no check sends or marks its key. */
  lemma SentRowUntouched(t: Table, md5: string -> string, input: CheckInput, k: string)
    requires k in t && t[k].isSent
    ensures var c := CheckProduct(t, md5, input);
            k in c.table && c.table[k] == t[k] && Send(k) !in c.events && Mark(k) !in c.events
  {
    var key := input.product.Hash(md5);
    if k == key {
      MarkedNeverResent(t, md5, input);
    } else {
      CheckExtends(t, md5, input);
      OtherKeysNotSent(t, md5, input, k);
    }
  }

  /**
   * When sending fails or raises, the record stays unmarked, so the product is
   * still eligible on the next run.
   */
  lemma FailedSendKeepsEligible(t: Table, md5: string -> string, input: CheckInput)
    ensures var c := CheckProduct(t, md5, input);
            var p := input.product;
            var key := p.Hash(md5);
            p.Fqdn() in Registry && IsInStock(Registry[p.Fqdn()], p, input.fetched) == Success(true) &&
            !(key in t && t[key].isSent) && SendDecision(input.env, input.reply) != Delivered ==>
              (c.outcome == SendFailed || c.outcome == SendRaised) && Send(key) in c.events
    ensures var c := CheckProduct(t, md5, input);
            var key := input.product.Hash(md5);
            c.outcome == SendFailed || c.outcome == SendRaised ==>
              c.table == Claim(t, input.product, key).table && key in c.table && !c.table[key].isSent &&
              Mark(key) !in c.events
  {
    CheckTable(t, md5, input);
    CheckEvents(t, md5, input);
    InStockBranch(t, md5, input);
  }

  /**
   * The table a check leaves, by how it ends: the row the lookup created (if
   * any) for a product in stock, marked sent after a delivery.
   */
  lemma CheckTable(t: Table, md5: string -> string, input: CheckInput)
    ensures var c := CheckProduct(t, md5, input);
            var key := input.product.Hash(md5);
            var claimed := Claim(t, input.product, key).table;
            c.table == (match c.outcome
                        case Sent => MarkSent(claimed, key)
                        case AlreadyNotified => claimed
                        case SendFailed => claimed
                        case SendRaised => claimed
                        case _ => t)
  {
    var p := input.product;
    if p.Fqdn() in Registry {
      RegisteredProductPassesGuard(p, input.fetched);
      var verdict := IsInStock(Registry[p.Fqdn()], p, input.fetched);
      if verdict.Success? && verdict.value {
        var n := NotifyInStock(t, p.Hash(md5), p, input.env, input.reply);
        assert CheckProduct(t, md5, input).table == n.table;
      }
    }
  }

  /**
   * A check changes at most the product's own row: that row may be created or
   * marked sent, every other row is untouched, and no sent row is unmarked.
   */
  lemma CheckExtends(t: Table, md5: string -> string, input: CheckInput)
    ensures var c := CheckProduct(t, md5, input);
            var key := input.product.Hash(md5);
            Extends(t, c.table) && c.table.Keys <= t.Keys + {key} &&
            (forall k :: k in c.table && k != key ==> k in t && c.table[k] == t[k])
  {
    CheckTable(t, md5, input);
  }

  /** 1 when `k` is marked sent in `t`, 0 otherwise. */
  function SentBit(t: Table, k: string): nat
  {
    if k in t && t[k].isSent then 1 else 0
  }

  /** How many times `events` marks `k` as sent. */
  function CountMarks(events: seq<Event>, k: string): nat
  {
    if events == [] then 0 else (if events[0] == Mark(k) then 1 else 0) + CountMarks(events[1..], k)
  }

  lemma {:induction false} CountMarksAppend(a: seq<Event>, b: seq<Event>, k: string)
    ensures CountMarks(a + b, k) == CountMarks(a, k) + CountMarks(b, k)
  {
    if a == [] {
      assert a + b == b;
    } else {
      assert (a + b)[1..] == a[1..] + b;
      CountMarksAppend(a[1..], b, k);
    }
  }

  lemma CountMarksOfAbsent(events: seq<Event>, k: string)
    requires Mark(k) !in events
    ensures CountMarks(events, k) == 0
  {
    if events != [] {
      assert events[0] in events;
      assert forall e :: e in events[1..] ==> e in events;
      CountMarksOfAbsent(events[1..], k);
    }
  }

  /** A row is marked sent after a check exactly when it was before or the check marked it, once. */
  lemma CheckMarkAccounting(t: Table, md5: string -> string, input: CheckInput, k: string)
    ensures var c := CheckProduct(t, md5, input);
            SentBit(c.table, k) == SentBit(t, k) + CountMarks(c.events, k)
  {
    CheckEvents(t, md5, input);
    CheckTable(t, md5, input);
    SentIffDelivered(t, md5, input);
    MarkAccountingOfShape(t, CheckProduct(t, md5, input), input.product, input.product.Hash(md5), input.env, k);
  }

  /** The accounting of `CheckMarkAccounting`, from the shape of a check's steps and table alone. */
  lemma MarkAccountingOfShape(t: Table, c: CheckResult, p: Product, key: string, env: Env, k: string)
    requires c.events == (match c.outcome
                          case AlreadyNotified => Fetches(p) + [Lookup(key)]
                          case SendFailed => Fetches(p) + [Lookup(key)] + SendEvents(key, env)
                          case SendRaised => Fetches(p) + [Lookup(key)] + SendEvents(key, env)
                          case Sent => Fetches(p) + [Lookup(key)] + SendEvents(key, env) + [Mark(key)]
                          case _ => Fetches(p))
    requires c.table == (match c.outcome
                         case Sent => MarkSent(Claim(t, p, key).table, key)
                         case AlreadyNotified => Claim(t, p, key).table
                         case SendFailed => Claim(t, p, key).table
                         case SendRaised => Claim(t, p, key).table
                         case _ => t)
    requires c.outcome == Sent ==> !(key in t && t[key].isSent)
    ensures SentBit(c.table, k) == SentBit(t, k) + CountMarks(c.events, k)
  {
    var e := Fetches(p) + [Lookup(key)] + SendEvents(key, env);
    assert Mark(k) !in e;
    CountMarksOfAbsent(e, k);
    if c.outcome == Sent {
      CountMarksAppend(e, [Mark(key)], k);
    } else {
      assert Mark(k) !in c.events;
      CountMarksOfAbsent(c.events, k);
    }
  }

  /** In a check's steps, a mark can only be the last step, so nothing is sent after it. */
  lemma MarksOnlyLast(t: Table, md5: string -> string, input: CheckInput)
    ensures var c := CheckProduct(t, md5, input);
            forall i :: 0 <= i < |c.events| - 1 ==> !c.events[i].Mark?
  {
    CheckEvents(t, md5, input);
    var c := CheckProduct(t, md5, input);
    var key := input.product.Hash(md5);
    var sent := Fetches(input.product) + [Lookup(key)] + SendEvents(key, input.env);
    assert forall i :: 0 <= i < |sent| ==> !sent[i].Mark?;
    if c.outcome == Sent {
      assert c.events == sent + [Mark(key)];
    } else if c.outcome == AlreadyNotified {
      assert c.events == Fetches(input.product) + [Lookup(key)];
    } else if c.outcome == SendFailed || c.outcome == SendRaised {
      assert c.events == sent;
    } else {
      assert c.events == Fetches(input.product);
    }
  }

  // ---------------------------------------------------------------------------
  // A run of checks
  // ---------------------------------------------------------------------------

  /** A run never removes a row, renames one or unmarks one. */
  lemma {:induction false} RunExtends(t: Table, md5: string -> string, inputs: seq<CheckInput>)
    ensures Extends(t, Run(t, md5, inputs).table)
    decreases |inputs|
  {
    if inputs != [] {
      var c := CheckProduct(t, md5, inputs[0]);
      CheckExtends(t, md5, inputs[0]);
      RunExtends(c.table, md5, inputs[1..]);
    }
  }

  /**
   * At most one notification per product key, ever: over any run, the times a
   * key is marked plus whether it was marked at the start equal whether it is
   * marked at the end, which is at most 1.
   */
  lemma {:induction false} RunMarkAccounting(t: Table, md5: string -> string, inputs: seq<CheckInput>, k: string)
    ensures var r := Run(t, md5, inputs);
            SentBit(r.table, k) == SentBit(t, k) + CountMarks(r.events, k) &&
            CountMarks(r.events, k) <= 1 &&
            (k in t && t[k].isSent ==> CountMarks(r.events, k) == 0)
    decreases |inputs|
  {
    if inputs != [] {
      var c := CheckProduct(t, md5, inputs[0]);
      CheckMarkAccounting(t, md5, inputs[0], k);
      RunMarkAccounting(c.table, md5, inputs[1..], k);
      CountMarksAppend(c.events, Run(c.table, md5, inputs[1..]).events, k);
    }
  }

  /** Once a key is marked sent, no later check sends for it. */
  lemma {:induction false} RunNeverResends(t: Table, md5: string -> string, inputs: seq<CheckInput>, k: string)
    requires k in t && t[k].isSent
    ensures Send(k) !in Run(t, md5, inputs).events
    decreases |inputs|
  {
    if inputs != [] {
      var c := CheckProduct(t, md5, inputs[0]);
      SentRowUntouched(t, md5, inputs[0], k);
      RunNeverResends(c.table, md5, inputs[1..], k);
    }
  }

  /** No `Send(k)` anywhere after a `Mark(k)`. */
  predicate NoSendAfterMark(events: seq<Event>, k: string)
  {
    forall i, j :: 0 <= i < j < |events| && events[i] == Mark(k) ==> events[j] != Send(k)
  }

  lemma NoSendAfterMarkAppend(a: seq<Event>, b: seq<Event>, k: string)
    requires NoSendAfterMark(a, k) && NoSendAfterMark(b, k)
    requires Mark(k) in a ==> Send(k) !in b
    ensures NoSendAfterMark(a + b, k)
  {
    var ab := a + b;
    forall i, j | 0 <= i < j < |ab| && ab[i] == Mark(k)
      ensures ab[j] != Send(k)
    {
      if j < |a| {
        assert ab[i] == a[i] && ab[j] == a[j];
      } else if i < |a| {
        assert a[i] == Mark(k);
        assert ab[j] == b[j - |a|];
      } else {
        assert ab[i] == b[i - |a|] && ab[j] == b[j - |a|];
      }
    }
  }

  lemma {:induction false} CountMarksPositive(events: seq<Event>, k: string, i: nat)
    requires i < |events| && events[i] == Mark(k)
    ensures CountMarks(events, k) > 0
  {
    if i > 0 {
      CountMarksPositive(events[1..], k, i - 1);
    }
  }

  /** Within one check nothing is sent after a mark, and a mark leaves the row marked sent. */
  lemma CheckMarkEndsSending(t: Table, md5: string -> string, input: CheckInput, k: string)
    ensures var c := CheckProduct(t, md5, input);
            NoSendAfterMark(c.events, k) &&
            (Mark(k) in c.events ==> k in c.table && c.table[k].isSent)
  {
    var c := CheckProduct(t, md5, input);
    MarksOnlyLast(t, md5, input);
    if Mark(k) in c.events {
      var i :| 0 <= i < |c.events| && c.events[i] == Mark(k);
      CountMarksPositive(c.events, k, i);
      CheckMarkAccounting(t, md5, input, k);
    }
  }

  /** Over a whole run, a product key is never sent for again once it has been marked. */
  lemma {:induction false} RunNoSendAfterMark(t: Table, md5: string -> string, inputs: seq<CheckInput>, k: string)
    ensures NoSendAfterMark(Run(t, md5, inputs).events, k)
    decreases |inputs|
  {
    if inputs != [] {
      var c := CheckProduct(t, md5, inputs[0]);
      var rest := Run(c.table, md5, inputs[1..]);
      RunNoSendAfterMark(c.table, md5, inputs[1..], k);
      CheckMarkEndsSending(t, md5, inputs[0], k);
      if Mark(k) in c.events {
        RunNeverResends(c.table, md5, inputs[1..], k);
      }
      NoSendAfterMarkAppend(c.events, rest.events, k);
    }
  }

  /** A run of one check. */
  lemma RunOne(t: Table, md5: string -> string, x: CheckInput)
    ensures var c := CheckProduct(t, md5, x);
            Run(t, md5, [x]) == RunResult([c.outcome], c.table, c.events)
  {
    var c := CheckProduct(t, md5, x);
    assert [x][1..] == [];
    assert CheckStep(md5)(t, x) == c;
    assert RunSteps(CheckStep(md5), c.table, []) == RunResult([], c.table, []);
    assert [c.outcome] + [] == [c.outcome] && c.events + [] == c.events;
  }

  /** A run of two checks, the second on the table the first leaves. */
  lemma RunTwo(t: Table, md5: string -> string, x: CheckInput, y: CheckInput)
    ensures var c1 := CheckProduct(t, md5, x);
            var c2 := CheckProduct(c1.table, md5, y);
            Run(t, md5, [x, y]) == RunResult([c1.outcome, c2.outcome], c2.table, c1.events + c2.events)
  {
    var c1 := CheckProduct(t, md5, x);
    assert [x, y][0] == x && [x, y][1..] == [y];
    assert CheckStep(md5)(t, x) == c1;
    RunOne(c1.table, md5, y);
  }

  // ---------------------------------------------------------------------------
  // Scenarios
  // ---------------------------------------------------------------------------

  /** A well.ca product page URL. */
  const WellCaUrl: string := "https" + "://" + "well.ca" + "/products/sample"

  lemma WellCaUrlFqdn()
    ensures Netloc(WellCaUrl) == "well.ca"
  {
    var host := "well.ca";
    forall k | 0 <= k < |host| ensures !IsAuthorityDelimiter(host[k]) {
      assert host[k] != '/' && host[k] != '?' && host[k] != '#';
    }
    HttpsNetloc(host, "/products/sample");
  }

  /** The dry-run environment: both addresses set and DEV spelled "True". */
  const DryRunEnv: Env := map["EMAIL_FROM" := "shop@example.com", "EMAIL_TO" := "me@example.com", "DEV" := "True"]

  /** The sample well.ca product, with a page that has the add-to-cart button. */
  const InStockSample: CheckInput :=
    CheckInput(Product("Sample", WellCaUrl), Response(200, Html({AddToCartButtonId})), DryRunEnv, SesRaises)

  /**
   * In dry-run mode, a product in stock with no row yet gets a row, is
   * reported delivered without any SES request, and has its row marked sent.
   */
  lemma DryRunDeliversWithoutSes(t: Table, md5: string -> string, input: CheckInput)
    requires var p := input.product; p.Fqdn() in Registry && IsInStock(Registry[p.Fqdn()], p, input.fetched) == Success(true)
    requires input.product.Hash(md5) !in t
    requires IsSet(input.env, "EMAIL_FROM") && IsSet(input.env, "EMAIL_TO") && DevMode(input.env)
    ensures var p := input.product;
            var key := p.Hash(md5);
            CheckProduct(t, md5, input) ==
              CheckResult(Sent, t[key := Record(p.name, p.url, true)], [Fetch(p.url), Lookup(key), Send(key), Mark(key)])
  {
    var p := input.product;
    var key := p.Hash(md5);
    RegisteredProductPassesGuard(p, input.fetched);
    assert SendDecision(input.env, input.reply) == Delivered && !ReachesSes(input.env);
    assert SendEvents(key, input.env) == [Send(key)];
    var claimed := t[key := Record(p.name, p.url, false)];
    assert MarkSent(claimed, key) == t[key := Record(p.name, p.url, true)];
  }

  /** The sample is a registered product in stock, and the dry-run environment is configured and in dry-run mode. */
  lemma InStockSampleFacts()
    ensures var p := InStockSample.product;
            p.Fqdn() in Registry && IsInStock(Registry[p.Fqdn()], p, InStockSample.fetched) == Success(true)
    ensures IsSet(DryRunEnv, "EMAIL_FROM") && IsSet(DryRunEnv, "EMAIL_TO") && DevMode(DryRunEnv)
  {
    WellCaUrlFqdn();
    DevModeSpellings(DryRunEnv);
  }

  /** In dry-run mode the first check of the sample is delivered without an SES request, and marked. */
  lemma DryRunFirstCheck(md5: string -> string)
    ensures var key := InStockSample.product.Hash(md5);
            CheckProduct(map[], md5, InStockSample) ==
              CheckResult(Sent, map[key := Record("Sample", WellCaUrl, true)],
                          [Fetch(WellCaUrl), Lookup(key), Send(key), Mark(key)])
  {
    InStockSampleFacts();
    DryRunDeliversWithoutSes(map[], md5, InStockSample);
  }

  /** Checking the same product again finds it already notified and sends nothing. */
  lemma DryRunSecondCheck(md5: string -> string)
    ensures var key := InStockSample.product.Hash(md5);
            var t := map[key := Record("Sample", WellCaUrl, true)];
            CheckProduct(t, md5, InStockSample) == CheckResult(AlreadyNotified, t, [Fetch(WellCaUrl), Lookup(key)])
  {
    InStockSampleFacts();
  }

  /** Two runs over the same in-stock product notify once. */
  lemma DryRunNotifiesOnce(md5: string -> string)
    ensures var key := InStockSample.product.Hash(md5);
            Run(map[], md5, [InStockSample, InStockSample]) ==
              RunResult([Sent, AlreadyNotified], map[key := Record("Sample", WellCaUrl, true)],
                        [Fetch(WellCaUrl), Lookup(key), Send(key), Mark(key), Fetch(WellCaUrl), Lookup(key)])
  {
    DryRunFirstCheck(md5);
    DryRunSecondCheck(md5);
    RunTwo(map[], md5, InStockSample, InStockSample);
  }

  /** A product of a store without an interface is skipped: no request, no table row. */
  lemma UnsupportedStoreSkipped(md5: string -> string, t: Table)
    ensures var p := Product("Sample", "https" + "://" + "www.amazon.ca" + "/dp/sample");
            var input := CheckInput(p, Response(200, Html({AddToCartButtonId})), map[], SesRaises);
            Run(t, md5, [input]) == RunResult([Unsupported], t, [])
  {
    var host := "www.amazon.ca";
    forall k | 0 <= k < |host| ensures !IsAuthorityDelimiter(host[k]) {
      assert host[k] != '/' && host[k] != '?' && host[k] != '#';
    }
    HttpsNetloc(host, "/dp/sample");
    RegistryKeysAreFqdns();
    var p := Product("Sample", "https" + "://" + "www.amazon.ca" + "/dp/sample");
    RunOne(t, md5, CheckInput(p, Response(200, Html({AddToCartButtonId})), map[], SesRaises));
  }
}

# In-stock notifier: a verified model of the check-and-notify pipeline

The in-stock notifier tracks product pages of online stores. On each run it
checks every product. It resolves the store interface from the domain of the
product URL. The interface requests the page and classifies it as in stock or
not. For a product in stock, a notification table keyed by the md5 of the URL
says whether a notification was already sent. If none was, one e-mail is sent
through SES, and the row is marked sent only after a confirmed delivery.

This project models that core in Dafny:

- `wrappers.dfy` (module `Wrappers`): `Result`, used where the source raises.
- `store_interface.dfy` (module `Stores`): `Product` with `Fqdn` (the netloc
  of the URL, as `urllib.parse` splits it) and `Hash` (md5 of the URL; the
  digest is a parameter). Also the `WellCa` store interface with its domain
  guard and classifier, `IsInStock` (guard, then request, then classify) and
  the `Registry` (`STORE_INTERFACE`).
- `in_stock_notifier.dfy` (module `Notifier`):
  - `safeget`, as a loop method `SafeGet` proved against the recursive
    `NestedGet`.
  - The sending decision `SendDecision` over the environment and the SES reply.
  - The table operations `Claim` (`has_already_notified`) and `MarkSent`
    (`update_notification_table`).
  - `CheckProduct`, which says what one `check_stock_and_notify` call returns,
    leaves in the table and does.
  - `Run`, a sequence of checks.
  - The class `InStockNotifier`. It holds the table as a `map` field and the
    lazily built SES client as a flag. A ghost log records the externally
    visible steps: page request, table lookup, call to send, SES request, mark.
    Its methods follow the source statement by statement and are proved equal
    to the functions above.
- `notifier_properties.dfy` (module `NotifierProperties`): what the pipeline
  promises.
  - Unsupported domains are skipped untouched, and `UnexpectedFQDN` cannot
    happen.
  - Early exits change nothing.
  - A row is marked only after a delivery.
  - A failed send leaves the product eligible.
  - A marked row is never sent again.
  - Over any run, the marks on a key plus its starting state equal its final
    state. So a key is marked sent (after a confirmed delivery) at most once,
    ever; a send that fails is tried again on the next run.
  - The `safeget` and DEV-flag facts, and concrete scenarios.

The page request, the SES call and the environment are inputs of each check
(`CheckInput`): the fetch outcome, the SES reply and the environment map.

## Model

| member | source | states |
|---|---|---|
| Stores.Product.Fqdn | in_stock_notifier/store_interface.py:21-25 | the fqdn is the URL's netloc (`Netloc`, urlsplit's authority): no longer than the URL and free of '/', '?' and '#', since the authority ends at the first of them |
| Stores.HostPrefixIsLongestClean | in_stock_notifier/store_interface.py:21-25 | the host part of the netloc is the longest prefix of the authority that contains no '/', '?' or '#' |
| Stores.NetlocOfAuthority | in_stock_notifier/store_interface.py:21-25 | `scheme://host` followed by a path, query, fragment or nothing has netloc `host` |
| Stores.NetlocOfBareHost | in_stock_notifier/store_interface.py:21-25 | a URL with no colon and no leading "//" (such as `well.ca/x`) has an empty netloc |
| Stores.FqdnDocExample | in_stock_notifier/store_interface.py:23 | the docstring example `https://docs.python.org/3/library/urllib.parse.html` has fqdn `docs.python.org` |
| Stores.HashDependsOnUrlOnly | in_stock_notifier/store_interface.py:15-19 | `Product.hash` is the digest of the URL alone: two products with the same URL get the same table key, whatever their names |
| Stores.StoreInterface.IsExpectedFqdn | in_stock_notifier/store_interface.py:60-62 | the guard accepts a domain exactly when it is the key under which `STORE_INTERFACE` holds this interface |
| Stores.IsInStock | in_stock_notifier/store_interface.py:46-58 | `UnexpectedFQDN` exactly when the product's fqdn is not the interface's. A verdict exactly when the guard passes and a response with status below 400 arrives, and then it is the classifier on the body. A status of 400 or more raises `ClientResponseError` carrying that status, and a connection failure raises a connection error |
| Stores.GuardFailureIgnoresFetch | in_stock_notifier/store_interface.py:50-51 | when the guard fails, the result does not depend on what a request would return: none is made |
| Stores.WellCaClassifies | in_stock_notifier/store_interface.py:79-85 | `WellCa._is_in_stock` (`Classify`) reports in stock exactly when the page has an element with id `add_to_cart_button`; adding it makes a page in stock, removing it makes it not |
| Stores.RegistryKeysAreFqdns | in_stock_notifier/store_interface.py:88 | `STORE_INTERFACE` (the constant `Registry`): every key is the fqdn of the interface it maps to; the only key is `well.ca` |
| Stores.RegisteredProductPassesGuard | in_stock_notifier/in_stock_notifier.py:111-119 | a product found in the registry by its own netloc always passes the guard of the interface found |
| Notifier.SafeGet | in_stock_notifier/in_stock_notifier.py:162-173 | the loop returns exactly `NestedGet` (the recursive `Dig` after the type test): None for a non-dict argument, the argument for no keys, None at a missing key, TypeError when subscripting a non-dict, else the value reached |
| Notifier.LowerAscii | in_stock_notifier/in_stock_notifier.py:56 | lower-casing keeps the length and lower-cases every ASCII capital, position by position |
| Notifier.SendDecision | in_stock_notifier/in_stock_notifier.py:48-83 | delivered exactly when both addresses are set and either DEV is "true" or the reply's `ResponseMetadata.HTTPStatusCode` is 200. Raises exactly when SES is reached and either the SES call raises or `safeget` raises TypeError on the reply; so a reached SES whose reply has no status, or another status, gives false. A missing address always gives false |
| Notifier.Claim | in_stock_notifier/in_stock_notifier.py:85-100 | the answer is the stored `is_sent` when the key is present. The table gains at most the key. Existing rows are unchanged. A new row is `{name, url, is_sent = false}` |
| Notifier.MarkSent | in_stock_notifier/in_stock_notifier.py:139-147 | same keys; the key's row keeps name and URL and becomes sent; every other row is unchanged |
| Notifier.RunStepsAppend | in_stock_notifier/in_stock_notifier.py:154-158 | `Run` (`check_stocks`, checks in order) on `a + b` is `Run` on `a`, then on `b` from the table `a` leaves: outcomes and steps concatenate |
| Notifier.InStockNotifier.constructor | in_stock_notifier/in_stock_notifier.py:14-23 | the notifier starts with the given table and no SES client |
| Notifier.InStockNotifier.SendNotification | in_stock_notifier/in_stock_notifier.py:43-83 | returns `SendDecision`. Builds the SES client only when SES is reached and none exists, so at most once. Logs the call and, when SES is reached, the SES request |
| Notifier.InStockNotifier.HasAlreadyNotified | in_stock_notifier/in_stock_notifier.py:85-100 | answer and new table are `Claim` of the old table; logs one lookup |
| Notifier.InStockNotifier.UpdateNotificationTable | in_stock_notifier/in_stock_notifier.py:139-147 | the table becomes `MarkSent` of the old one; logs one mark |
| Notifier.InStockNotifier.NotifyIfNew | in_stock_notifier/in_stock_notifier.py:132-137 | the in-stock block. Outcome, table and steps are those of `NotifyInStock`. The SES client exists afterwards exactly when it did before or send was called with SES reachable |
| Notifier.InStockNotifier.CheckStockAndNotify | in_stock_notifier/in_stock_notifier.py:102-137 | outcome, new table and logged steps are exactly those of `CheckProduct` on the old table |
| Notifier.InStockNotifier.CheckStocks | in_stock_notifier/in_stock_notifier.py:149-159 | outcomes, final table and logged steps are those of `Run`: every product checked in order on the table the previous check left |
| NotifierProperties.DigAppend | in_stock_notifier/in_stock_notifier.py:168-172 | following `a + b` is following `a`, then `b` from the value reached, and an early None or TypeError stops the walk |
| NotifierProperties.MissingKeyOnPath | in_stock_notifier/in_stock_notifier.py:169-172 | a key missing at any point along the path gives None |
| NotifierProperties.NonDictOnPathRaises | in_stock_notifier/in_stock_notifier.py:169-170 | reaching a non-dict before the keys run out raises TypeError, which `safeget` does not catch |
| NotifierProperties.NestedGetOfNest | in_stock_notifier/in_stock_notifier.py:162-173 | `safeget` finds a value nested under the same non-empty key path |
| NotifierProperties.DevModeSpellings | in_stock_notifier/in_stock_notifier.py:56 | dry-run mode holds exactly for DEV equal to "true" in any letter case |
| NotifierProperties.SesStatusDecides | in_stock_notifier/in_stock_notifier.py:72-83 | with SES reached, any reply whose `ResponseMetadata` is a dict holding `HTTPStatusCode`, whatever other keys either carries, is a delivery when that status is 200 and gives false for any other integer status |
| NotifierProperties.MalformedMetadataRaises | in_stock_notifier/in_stock_notifier.py:72 | with SES reached, any reply whose `ResponseMetadata` is present but not a dict makes `send_notification` raise |
| NotifierProperties.ClaimTwice | in_stock_notifier/in_stock_notifier.py:91-100 | two lookups of a fresh key both answer false and leave exactly one new row |
| NotifierProperties.UnsupportedIsSkipped | in_stock_notifier/in_stock_notifier.py:111-116 | the check is Unsupported exactly when the domain is not registered. Then it leaves the table unchanged and takes no step at all. Otherwise the page request comes first |
| NotifierProperties.UnexpectedFqdnUnreachable | in_stock_notifier/in_stock_notifier.py:111-126 | no check ends with `UnexpectedFQDN` |
| NotifierProperties.EarlyExitsChangeNothing | in_stock_notifier/in_stock_notifier.py:111-132 | from the inputs: an unregistered domain gives Unsupported with no step; a connection failure gives ConnectionRaised, a status of 400 or more LoadFailed, a page classified out of stock NotInStock, and any verdict other than in stock its outcome; each leaves the table unchanged with the page request as the only step |
| NotifierProperties.InStockReachesLookup | in_stock_notifier/in_stock_notifier.py:117-133 | a registered product whose page loads below 400 and is classified in stock goes on to the table lookup: request, then lookup, and an in-stock outcome |
| NotifierProperties.CheckEvents | in_stock_notifier/in_stock_notifier.py:102-137 | the steps of `CheckProduct` (with `CheckRegistered` and the in-stock branch `NotifyInStock`) for each way it can end: request; then lookup; then send (with the SES request when configured); then mark |
| NotifierProperties.CheckTable | in_stock_notifier/in_stock_notifier.py:102-137 | the table `CheckProduct` leaves for each way it can end: unchanged, the lookup's table, or that table with the row marked |
| NotifierProperties.InStockBranch | in_stock_notifier/in_stock_notifier.py:132-137 | for a registered product found in stock: the check stops at the lookup exactly when the row is already marked sent; otherwise `send_notification` is called and the check ends Sent, SendFailed or SendRaised as sending is delivered, false or raising |
| NotifierProperties.SentIffDelivered | in_stock_notifier/in_stock_notifier.py:132-137 | Sent exactly when the product is registered, in stock, not marked and delivery succeeds; then its row is marked |
| NotifierProperties.MarkedNeverResent | in_stock_notifier/in_stock_notifier.py:133-134 | a product whose row is marked sent is not sent again, and the table is unchanged |
| NotifierProperties.SentRowUntouched | in_stock_notifier/in_stock_notifier.py:133-137 | a row marked sent keeps its record through any check, and no check sends for or marks its key |
| NotifierProperties.OtherKeysNotSent | in_stock_notifier/in_stock_notifier.py:133-137 | a check sends for and marks only its own product's key |
| NotifierProperties.FailedSendKeepsEligible | in_stock_notifier/in_stock_notifier.py:133-136 | for a registered, in-stock, unmarked product whose send returns false or raises, the check calls send and ends SendFailed or SendRaised; then the row stays unmarked and no mark is taken, so the next run tries again |
| NotifierProperties.CheckExtends | in_stock_notifier/in_stock_notifier.py:133-147 | a check creates or marks at most its own row: every other row is unchanged and no row loses its name, URL or sent mark |
| NotifierProperties.CheckMarkAccounting | in_stock_notifier/in_stock_notifier.py:133-137 | a key is marked after a check exactly when it was before or the check marked it, and then the check marked it once |
| NotifierProperties.MarksOnlyLast | in_stock_notifier/in_stock_notifier.py:137 | a mark can only be the last step of a check |
| NotifierProperties.CheckMarkEndsSending | in_stock_notifier/in_stock_notifier.py:133-137 | within a check nothing is sent after a mark, and a mark leaves the row marked sent |
| NotifierProperties.RunExtends | in_stock_notifier/in_stock_notifier.py:149-159 | over a run no row is removed, renamed or unmarked |
| NotifierProperties.RunMarkAccounting | in_stock_notifier/in_stock_notifier.py:149-159 | over a run, a key's marks plus its starting mark equal its final mark. So each key is marked at most once, and never if it started marked |
| NotifierProperties.RunNeverResends | in_stock_notifier/in_stock_notifier.py:149-159 | once a key is marked, no check of a run sends for it |
| NotifierProperties.RunNoSendAfterMark | in_stock_notifier/in_stock_notifier.py:149-159 | in the steps of a run, no send for a key follows a mark of that key |
| NotifierProperties.RunTwo | in_stock_notifier/in_stock_notifier.py:156-158 | a run of two checks is the second check on the table the first leaves |
| NotifierProperties.DryRunDeliversWithoutSes | in_stock_notifier/in_stock_notifier.py:56-61 | in dry-run mode a registered, in-stock product with no row gets a row that ends up marked. It is reported delivered with no SES request |
| NotifierProperties.DryRunNotifiesOnce | in_stock_notifier/in_stock_notifier.py:132-137 | checking the same in-stock well.ca product twice from an empty table in dry-run mode gives Sent, then AlreadyNotified. There is one send and one marked row |
| NotifierProperties.UnsupportedStoreSkipped | in_stock_notifier/in_stock_notifier.py:111-116 | a `www.amazon.ca` product is skipped with no request and no row |

## Left out

- The HTTP request, the SES call and the environment are inputs of each check (`FetchOutcome`, `SesReply`, `Env`). Timeouts and decoding errors of `resp.text()` are not modelled.
- BeautifulSoup is not modelled: a parsed page is the set of element ids it carries (`Html`).
- md5 is a parameter `string -> string` that is never interpreted. No property relies on it being collision-free. Products whose URLs collide share a row, as in the source.
- DynamoDB persistence is not modelled. The table is a map field. Table creation, the DEV endpoint, DynamoDB errors and the non-atomic get-then-save across overlapping runs are left out.
- CSV loading (`import_products_csv`), logging, `handler.py` and `misc/visual_test.py` are not part of this model.
- Notifier.InStockNotifier.CheckStocks: checks run one after another, and a check that raises is recorded as an outcome before the next one starts. The source runs them concurrently with `asyncio.gather`. There the first exception propagates out of `check_stocks`, and checks still pending can be cut short. Interleavings and cancellation are not modelled.
- Netloc: `urlsplit` is simplified. Leading whitespace and control characters are not stripped, and tabs and line breaks inside the URL are not removed. Bracketed IPv6 hosts are not validated, so the ValueError this can raise is not modelled. The check `_checknetloc` makes on a non-ASCII netloc is not modelled either: when NFKC normalisation turns such a netloc's characters into '/', '?', '#', '@' or ':', `urlsplit` raises ValueError, and `Netloc` returns the host instead.
- Notifier.LowerAscii: lower-cases ASCII letters only. No other character lower-cases to one of `t`, `r`, `u`, `e`, so the DEV test (`DevMode`) is exact.
- Notifier.Value: holds dicts, integers, strings and None. Lists, floats and booleans are left out, so the Python equalities `200.0 == 200` and `True == 1` are not modelled.
- Notifier.InStockNotifier.UpdateNotificationTable: requires the key to be present, where the source's `get` raises `DoesNotExist`. `NotifyIfNew` shows the requirement always holds, because `HasAlreadyNotified` runs first.
- Behaviours of the code that the model follows as written:
  - Only `ClientResponseError` (status 400 or more) is caught around the request in `check_stock_and_notify`. A connection failure propagates out of the check (`ConnectionRaised`).
  - `send_notification` catches nothing. An SES exception, or a `safeget` TypeError on a malformed reply, propagates out of it (`SendRaised`), although its docstring (in_stock_notifier/in_stock_notifier.py:44-46) describes only a true or false answer.
  - A missing `EMAIL_FROM` or `EMAIL_TO` is not an error at startup. `send_notification` returns false, and the row stays unmarked.
  - `safeget` catches only KeyError. A path through a non-dict raises TypeError.

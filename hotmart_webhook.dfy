/**
 * The Hotmart purchase webhook (`supabase/functions/hotmart-webhook/index.ts`).
 *
 * A delivery is read field by field from a schema-tolerant JSON payload, the
 * product name is mapped to a slug, non-approved events are ignored, and an
 * approved purchase is recorded in the `purchases` table unless a row with the
 * same transaction id is already there. The HTTP layer is reduced to a
 * request (pre-flight or not, with a body that did or did not parse) and a
 * response variant; the two database calls may each fail, which the caller
 * supplies as flags.
 */
module HotmartWebhook {
  import opened Wrappers
  import opened Text
  import opened Purchases
  import Catalog

  // ---- The payload, as far as the handler reads it. `None` is an absent or null member.

  datatype Buyer = Buyer(email: Option<string>, checkoutPhone: Option<string>)
  datatype ProductInfo = ProductInfo(name: Option<string>)
  datatype PurchaseInfo = PurchaseInfo(transaction: Option<string>)
  datatype Data = Data(
    event: Option<string>,
    buyer: Option<Buyer>,
    product: Option<ProductInfo>,
    purchase: Option<PurchaseInfo>,
    transaction: Option<string>)
  datatype Payload = Payload(
    event: Option<string>,
    status: Option<string>,
    data: Option<Data>,
    buyer: Option<Buyer>,
    product: Option<ProductInfo>,
    purchase: Option<PurchaseInfo>)

  /** `req.json()` either fails (also for a literal `null`, whose members cannot be read) or yields a payload. */
  datatype Body = Unparsable | Json(payload: Payload)
  datatype Request = Request(isPreflight: bool, body: Body)
  datatype Env = Env(supabaseUrl: Option<string>, serviceRoleKey: Option<string>)

  datatype Response =
    | Preflight            // CORS headers, empty body
    | NoBuyerEmail         // 400 {error: "No buyer email"}
    | Ignored              // 200 {ok: true, ignored: true}
    | Duplicate            // 200 {ok: true, duplicate: true}
    | Recorded             // 200 {ok: true}
    | InsertFailed         // 500 {error: <insert error>}
    | ServerError          // 500 {error: <thrown error>}

  function StatusCode(r: Response): (code: int)
    ensures code == 200 <==> r.Preflight? || r.Ignored? || r.Duplicate? || r.Recorded?
  {
    match r
    case Preflight => 200
    case NoBuyerEmail => 400
    case Ignored => 200
    case Duplicate => 200
    case Recorded => 200
    case InsertFailed => 500
    case ServerError => 500
  }

  // ---- Field extraction: `a || b || c || ""`.

  /** The first truthy candidate, or "" when there is none. */
  function FirstTruthy(candidates: seq<Option<string>>): (r: string)
    ensures r == "" <==> forall i :: 0 <= i < |candidates| ==> !Truthy(candidates[i])
    ensures r != "" ==> exists i :: 0 <= i < |candidates| && candidates[i] == Some(r)
                                    && forall j :: 0 <= j < i ==> !Truthy(candidates[j])
  {
    if candidates == [] then ""
    else if Truthy(candidates[0]) then candidates[0].value
    else
      var r := FirstTruthy(candidates[1..]);
      assert r != "" ==> exists i :: 0 <= i < |candidates| - 1 && candidates[1..][i] == Some(r)
                                     && forall j :: 0 <= j < i ==> !Truthy(candidates[1..][j]);
      r
  }

  function DataEvent(d: Option<Data>): Option<string> {
    if d.Some? then d.value.event else None
  }
  function BuyerEmail(b: Option<Buyer>): Option<string> {
    if b.Some? then b.value.email else None
  }
  function BuyerPhone(b: Option<Buyer>): Option<string> {
    if b.Some? then b.value.checkoutPhone else None
  }
  function ProductName(pr: Option<ProductInfo>): Option<string> {
    if pr.Some? then pr.value.name else None
  }
  function PurchaseTransaction(pu: Option<PurchaseInfo>): Option<string> {
    if pu.Some? then pu.value.transaction else None
  }

  function EventCandidates(p: Payload): seq<Option<string>> {
    [p.event, DataEvent(p.data)]
  }
  function EmailCandidates(p: Payload): seq<Option<string>> {
    [ BuyerEmail(if p.data.Some? then p.data.value.buyer else None),
      BuyerEmail(p.buyer),
      BuyerPhone(if p.data.Some? then p.data.value.buyer else None) ]
  }
  function ProductCandidates(p: Payload): seq<Option<string>> {
    [ProductName(if p.data.Some? then p.data.value.product else None), ProductName(p.product)]
  }
  function TransactionCandidates(p: Payload): seq<Option<string>> {
    [ PurchaseTransaction(if p.data.Some? then p.data.value.purchase else None),
      PurchaseTransaction(p.purchase),
      if p.data.Some? then p.data.value.transaction else None ]
  }

  function EventOf(p: Payload): string { FirstTruthy(EventCandidates(p)) }
  function EmailOf(p: Payload): string { FirstTruthy(EmailCandidates(p)) }
  function ProductNameOf(p: Payload): string { FirstTruthy(ProductCandidates(p)) }
  function TransactionOf(p: Payload): string { FirstTruthy(TransactionCandidates(p)) }

  /** `data.buyer.email` wins over `buyer.email`, which wins over `data.buyer.checkout_phone`. */
  lemma EmailPrecedence(p: Payload)
    ensures Truthy(EmailCandidates(p)[0]) ==> EmailOf(p) == EmailCandidates(p)[0].value
    ensures !Truthy(EmailCandidates(p)[0]) && Truthy(EmailCandidates(p)[1]) ==> EmailOf(p) == EmailCandidates(p)[1].value
    ensures !Truthy(EmailCandidates(p)[0]) && !Truthy(EmailCandidates(p)[1]) ==>
              EmailOf(p) == (if Truthy(EmailCandidates(p)[2]) then EmailCandidates(p)[2].value else "")
  {
  }

  // ---- Product slug.

  /** `slugMap`: Hotmart product names to catalog slugs. */
  const SlugTable: seq<(string, string)> := [
    ("+5000 Atividades", "5000-atividades"),
    ("Kit Completo da Alfabetização", "kit-completo-alfabetizacao"),
    ("Kit Sala de Aula em 1 Hora", "kit-sala-de-aula-1-hora"),
    ("Moldes Novos Todos os Meses", "moldes-novos-todos-os-meses"),
    ("Painel das Palavras", "painel-das-palavras"),
    ("Palavras Escondidas", "palavras-escondidas")
  ]

  /**
   * `replace(/\s+/g, "-")`: every maximal run of whitespace becomes one hyphen.
   * Read left to right, a whitespace character followed by more whitespace is
   * dropped and the last one of its run is replaced by "-".
   */
  function HyphenateSpaceRuns(s: string): (r: string)
    ensures forall i :: 0 <= i < |r| ==> !IsSpace(r[i])
    ensures |r| <= |s|
  {
    if s == [] then []
    else if IsSpace(s[0]) && |s| > 1 && IsSpace(s[1]) then HyphenateSpaceRuns(s[1..])
    else if IsSpace(s[0]) then "-" + HyphenateSpaceRuns(s[1..])
    else [s[0]] + HyphenateSpaceRuns(s[1..])
  }

  /** A string without whitespace is left as it is. */
  lemma {:induction false} HyphenateNoSpace(s: string)
    requires forall i :: 0 <= i < |s| ==> !IsSpace(s[i])
    ensures HyphenateSpaceRuns(s) == s
  {
    if s != [] {
      assert !IsSpace(s[0]);
      HyphenateNoSpace(s[1..]);
    }
  }

  /** A whitespace run followed by a non-space (or nothing) becomes a single hyphen. */
  lemma {:induction false} HyphenateLeadingRun(run: string, b: string)
    requires run != [] && AllSpace(run)
    requires b == [] || !IsSpace(b[0])
    ensures HyphenateSpaceRuns(run + b) == "-" + HyphenateSpaceRuns(b)
  {
    var s := run + b;
    assert s[0] == run[0] && s[1..] == run[1..] + b;
    if |run| > 1 {
      assert s[1] == run[1];
      HyphenateLeadingRun(run[1..], b);
    } else {
      assert run[1..] + b == b;
    }
  }

  /** A whitespace run between two pieces contributes exactly one hyphen. */
  lemma HyphenateRun(a: string, run: string, b: string)
    requires run != [] && AllSpace(run)
    requires a == [] || !IsSpace(a[|a| - 1])
    requires b == [] || !IsSpace(b[0])
    ensures HyphenateSpaceRuns(a + (run + b)) == HyphenateSpaceRuns(a) + ("-" + HyphenateSpaceRuns(b))
  {
    HyphenateAppend(a, run + b);
    HyphenateLeadingRun(run, b);
  }

  /** Runs never reach across a boundary whose left side ends in a non-space, so the pieces hyphenate apart. */
  lemma {:induction false} HyphenateAppend(a: string, u: string)
    requires a == [] || !IsSpace(a[|a| - 1])
    ensures HyphenateSpaceRuns(a + u) == HyphenateSpaceRuns(a) + HyphenateSpaceRuns(u)
  {
    if a == [] {
      assert a + u == u;
    } else {
      var s, t := a + u, a[1..] + u;
      assert s[0] == a[0] && s[1..] == t;
      if |a| > 1 {
        assert s[1] == a[1];
        assert a[1..][|a[1..]| - 1] == a[|a| - 1];
      } else {
        assert a[1..] == [];
      }
      HyphenateAppend(a[1..], u);
      var rest, tail := HyphenateSpaceRuns(a[1..]), HyphenateSpaceRuns(u);
      if IsSpace(a[0]) && IsSpace(a[1]) {
        assert HyphenateSpaceRuns(s) == HyphenateSpaceRuns(t);
      } else if IsSpace(a[0]) {
        assert HyphenateSpaceRuns(s) == "-" + HyphenateSpaceRuns(t);
        assert "-" + (rest + tail) == ("-" + rest) + tail;
      } else {
        assert HyphenateSpaceRuns(s) == [a[0]] + HyphenateSpaceRuns(t);
        assert [a[0]] + (rest + tail) == ([a[0]] + rest) + tail;
      }
    }
  }

  /** The fallback slug: lower-cased, whitespace runs hyphenated, every other character kept. */
  function FallbackSlug(name: string): (slug: string)
    ensures |slug| <= |name|
    ensures forall i :: 0 <= i < |slug| ==> !IsSpace(slug[i])
  {
    HyphenateSpaceRuns(ToLower(name))
  }

  /** `slugMap[productName] || fallback`: table values are non-empty, so a hit always wins. */
  function ProductSlug(name: string): (slug: string)
    ensures (exists i :: 0 <= i < |SlugTable| && SlugTable[i].0 == name) ==>
              exists i :: 0 <= i < |SlugTable| && SlugTable[i] == (name, slug)
    ensures (forall i :: 0 <= i < |SlugTable| ==> SlugTable[i].0 != name) ==> slug == FallbackSlug(name)
  {
    match Lookup(SlugTable, name)
    case Some(s) => s
    case None => FallbackSlug(name)
  }

  /** A word, a single space, then the rest: the space becomes a hyphen. */
  lemma HyphenateWord(w: string, rest: string)
    requires w != [] && forall i :: 0 <= i < |w| ==> !IsSpace(w[i])
    requires rest == [] || !IsSpace(rest[0])
    ensures HyphenateSpaceRuns(w + (" " + rest)) == w + ("-" + HyphenateSpaceRuns(rest))
  {
    HyphenateNoSpace(w);
    HyphenateRun(w, " ", rest);
  }

  lemma EvaName()
    ensures ToLower("+5000 Moldes de EVA") == "+5000" + (" " + ("moldes" + (" " + ("de" + (" " + "eva")))))
    ensures "+5000-moldes-de-eva" == "+5000" + ("-" + ("moldes" + ("-" + ("de" + ("-" + "eva")))))
  {
  }

  /** The fallback keeps punctuation: "+5000 Moldes de EVA" becomes "+5000-moldes-de-eva". */
  lemma FallbackKeepsPunctuation()
    ensures ProductSlug("+5000 Moldes de EVA") == "+5000-moldes-de-eva"
  {
    EvaName();
    HyphenateNoSpace("eva");
    HyphenateWord("de", "eva");
    HyphenateWord("moldes", "de" + (" " + "eva"));
    HyphenateWord("+5000", "moldes" + (" " + ("de" + (" " + "eva"))));
    SlugTableKeys();
  }

  /** The six table keys, none of which is the seventh catalog product's name. */
  lemma SlugTableKeys()
    ensures forall i, j :: 0 <= i < j < |SlugTable| ==> SlugTable[i].0 != SlugTable[j].0
    ensures forall i :: 0 <= i < |SlugTable| ==> SlugTable[i].0 != "+5000 Moldes de EVA"
  {
    // The keys differ in length or in one of their first three characters.
    forall i, j | 0 <= i < j < |SlugTable|
      ensures SlugTable[i].0 != SlugTable[j].0
    {
      var a, b := SlugTable[i].0, SlugTable[j].0;
      assert |a| != |b| || a[0] != b[0] || a[2] != b[2];
    }
    assert "+5000 Moldes de EVA"[1] == '5';
  }

  /** Each of the first six catalog products is mapped to its own catalog slug. */
  lemma KnownProductSlug(i: nat)
    requires i < 6
    ensures ProductSlug(Catalog.Products[i].name) == Catalog.Products[i].slug
  {
    SlugTableKeys();
    assert SlugTable[i] == (Catalog.Products[i].name, Catalog.Products[i].slug);
    LookupAt(SlugTable, i);
  }

  /** No catalog slug starts with '+'. */
  lemma CatalogSlugsUnsigned()
    ensures forall q :: q in Catalog.Products ==> q.slug != [] && q.slug[0] != '+'
  {
  }

  /**
   * The table covers the first six catalog products, each mapped to its catalog slug;
   * the seventh ("+5000 Moldes de EVA") falls through to a slug the catalog does not use.
   */
  lemma SlugTableAgainstCatalog()
    ensures forall i :: 0 <= i < 6 ==> ProductSlug(Catalog.Products[i].name) == Catalog.Products[i].slug
    ensures ProductSlug(Catalog.Products[6].name) != Catalog.Products[6].slug
    ensures Catalog.GetProductBySlug(ProductSlug(Catalog.Products[6].name)).None?
  {
    forall i | 0 <= i < 6
      ensures ProductSlug(Catalog.Products[i].name) == Catalog.Products[i].slug
    {
      KnownProductSlug(i);
    }
    var name := Catalog.Products[6].name;
    assert name == "+5000 Moldes de EVA";
    FallbackKeepsPunctuation();
    var slug := ProductSlug(name);
    assert slug[0] == '+';
    CatalogSlugsUnsigned();
    assert Catalog.Products[6] in Catalog.Products;
  }

  // ---- The approval gate and the record.

  predicate IsApproved(event: string, p: Payload) {
    event == "PURCHASE_APPROVED" || event == "purchase.approved" || p.status == Some("approved")
  }

  /** The row inserted for an approved payload. */
  function RecordOf(p: Payload): (rec: PurchaseRecord)
    ensures rec.status == "approved" && rec.productName == ProductNameOf(p)
    ensures rec.transactionId == None <==> TransactionOf(p) == ""
    ensures rec.transactionId.Some? ==> rec.transactionId.value == TransactionOf(p)
  {
    var tx := TransactionOf(p);
    PurchaseRecord(
      Trim(ToLower(EmailOf(p))),
      ProductSlug(ProductNameOf(p)),
      ProductNameOf(p),
      if tx == "" then None else Some(tx),
      "approved")
  }

  predicate EnvReady(env: Env) {
    Truthy(env.supabaseUrl) && Truthy(env.serviceRoleKey)
  }

  /**
   * One delivery: the response and the table afterwards. `queryFails` and
   * `insertFails` say whether the duplicate lookup and the insert return an error.
   */
  function Deliver(req: Request, env: Env, rows: seq<PurchaseRecord>, queryFails: bool, insertFails: bool)
    : (out: (Response, seq<PurchaseRecord>))
    ensures out.1 == rows || (req.body.Json? && out.0 == Recorded && out.1 == rows + [RecordOf(req.body.payload)])
    ensures out.0 == Recorded <==> out.1 != rows
  {
    if req.isPreflight then (Preflight, rows)
    else if !EnvReady(env) then (ServerError, rows)
    else match req.body
      case Unparsable => (ServerError, rows)
      case Json(p) =>
        if EmailOf(p) == "" then (NoBuyerEmail, rows)
        else if !IsApproved(EventOf(p), p) then (Ignored, rows)
        else
          var tx := TransactionOf(p);
          if tx != "" && !queryFails && CountTransaction(rows, tx) > 0 then (Duplicate, rows)
          else if insertFails then (InsertFailed, rows)
          else
            assert |rows + [RecordOf(p)]| != |rows|;
            (Recorded, rows + [RecordOf(p)])
  }

  /** The handler, step by step with early returns, against the table. */
  method HandleWebhook(store: PurchaseStore, req: Request, env: Env, queryFails: bool, insertFails: bool)
    returns (resp: Response)
    modifies store
    ensures (resp, store.rows) == Deliver(req, env, old(store.rows), queryFails, insertFails)
  {
    if req.isPreflight {
      return Preflight;
    }
    if !EnvReady(env) {
      return ServerError;
    }
    if req.body.Unparsable? {
      return ServerError;
    }
    var body := req.body.payload;
    var event := EventOf(body);
    var buyerEmail := EmailOf(body);
    var productName := ProductNameOf(body);
    var transactionId := TransactionOf(body);
    if buyerEmail == "" {
      return NoBuyerEmail;
    }
    var productSlug := ProductSlug(productName);
    if !IsApproved(event, body) {
      return Ignored;
    }
    var emailNorm := Trim(ToLower(buyerEmail));
    var txId := if transactionId == "" then None else Some(transactionId);
    if txId.Some? {
      var existing := store.HasTransaction(txId.value, queryFails);
      if existing {
        return Duplicate;
      }
    }
    var ok := store.Insert(PurchaseRecord(emailNorm, productSlug, productName, txId, "approved"), insertFails);
    if !ok {
      return InsertFailed;
    }
    return Recorded;
  }

  // ---- Properties of a delivery.

  function BodyOf(p: Payload): Request { Request(false, Json(p)) }

  /** A pre-flight request is answered without reading the environment or the table. */
  lemma PreflightUntouched(body: Body, env: Env, rows: seq<PurchaseRecord>, qf: bool, inf: bool)
    ensures Deliver(Request(true, body), env, rows, qf, inf) == (Preflight, rows)
  {
  }

  /** A missing buyer email is a 400 before the approval gate, whatever the event. */
  lemma MissingEmailRejected(p: Payload, env: Env, rows: seq<PurchaseRecord>, qf: bool, inf: bool)
    requires EnvReady(env)
    requires forall i :: 0 <= i < 3 ==> !Truthy(EmailCandidates(p)[i])
    ensures Deliver(BodyOf(p), env, rows, qf, inf) == (NoBuyerEmail, rows)
  {
  }

  /** A delivery that is not approved is acknowledged with 200 and records nothing. */
  lemma UnapprovedIgnored(p: Payload, env: Env, rows: seq<PurchaseRecord>, qf: bool, inf: bool)
    requires EnvReady(env) && EmailOf(p) != ""
    requires !IsApproved(EventOf(p), p)
    ensures Deliver(BodyOf(p), env, rows, qf, inf) == (Ignored, rows)
    ensures StatusCode(Ignored) == 200
  {
  }

  /** Missing configuration or an unparsable body is a 500 and records nothing. */
  lemma ServerErrorsRecordNothing(req: Request, env: Env, rows: seq<PurchaseRecord>, qf: bool, inf: bool)
    requires !req.isPreflight && (!EnvReady(env) || req.body.Unparsable?)
    ensures Deliver(req, env, rows, qf, inf) == (ServerError, rows)
  {
  }

  /** An approved delivery whose transaction id is already stored is a duplicate and records nothing. */
  lemma KnownTransactionIsDuplicate(p: Payload, env: Env, rows: seq<PurchaseRecord>, inf: bool)
    requires EnvReady(env) && EmailOf(p) != "" && IsApproved(EventOf(p), p)
    requires TransactionOf(p) != ""
    requires exists i :: 0 <= i < |rows| && rows[i].transactionId == Some(TransactionOf(p))
    ensures Deliver(BodyOf(p), env, rows, false, inf) == (Duplicate, rows)
  {
    CountTransactionPositive(rows, TransactionOf(p));
    CountedIsDuplicate(p, env, rows, inf);
  }

  /** The same, with the stored id counted rather than exhibited. */
  lemma CountedIsDuplicate(p: Payload, env: Env, rows: seq<PurchaseRecord>, inf: bool)
    requires EnvReady(env) && EmailOf(p) != "" && IsApproved(EventOf(p), p)
    requires TransactionOf(p) != "" && CountTransaction(rows, TransactionOf(p)) > 0
    ensures Deliver(BodyOf(p), env, rows, false, inf) == (Duplicate, rows)
  {
  }

  /** A lookup that errors is read as "no match": the record is appended whatever is stored. */
  lemma FailedLookupAppends(p: Payload, env: Env, rows: seq<PurchaseRecord>)
    requires EnvReady(env) && EmailOf(p) != "" && IsApproved(EventOf(p), p)
    ensures Deliver(BodyOf(p), env, rows, true, false) == (Recorded, rows + [RecordOf(p)])
  {
  }

  /** An approved delivery with a new (or no) transaction id appends exactly its record, or fails with 500. */
  lemma NewPurchaseAppended(p: Payload, env: Env, rows: seq<PurchaseRecord>, qf: bool, inf: bool)
    requires EnvReady(env) && EmailOf(p) != "" && IsApproved(EventOf(p), p)
    requires TransactionOf(p) == "" || forall i :: 0 <= i < |rows| ==> rows[i].transactionId != Some(TransactionOf(p))
    ensures Deliver(BodyOf(p), env, rows, qf, inf) ==
              if inf then (InsertFailed, rows) else (Recorded, rows + [RecordOf(p)])
  {
    if TransactionOf(p) != "" {
      CountTransactionPositive(rows, TransactionOf(p));
    }
  }

  // ---- Sequential redelivery.

  /** One approved delivery whose duplicate lookup succeeds, in terms of the table alone. */
  lemma ApprovedDelivery(p: Payload, env: Env, rows: seq<PurchaseRecord>, inf: bool)
    requires EnvReady(env) && EmailOf(p) != "" && IsApproved(EventOf(p), p)
    requires TransactionOf(p) != ""
    ensures Deliver(BodyOf(p), env, rows, false, inf).1 ==
              if CountTransaction(rows, TransactionOf(p)) > 0 || inf then rows else rows + [RecordOf(p)]
  {
  }

  /** The appended record is the only new row carrying its transaction id. */
  lemma CountAfterRecord(p: Payload, rows: seq<PurchaseRecord>)
    requires TransactionOf(p) != ""
    ensures CountTransaction(rows + [RecordOf(p)], TransactionOf(p)) == CountTransaction(rows, TransactionOf(p)) + 1
  {
    CountTransactionAppend(rows, [RecordOf(p)], TransactionOf(p));
    assert [RecordOf(p)][..0] == [];
  }

  /** The outcome of the two database calls of one delivery. */
  datatype Attempt = Attempt(queryFails: bool, insertFails: bool)

  /** The table after delivering `req` once per attempt, in order. */
  function DeliverAll(req: Request, env: Env, rows: seq<PurchaseRecord>, attempts: seq<Attempt>): seq<PurchaseRecord>
    decreases |attempts|
  {
    if attempts == [] then rows
    else DeliverAll(req, env, Deliver(req, env, rows, attempts[0].queryFails, attempts[0].insertFails).1, attempts[1..])
  }

  predicate SomeInsertSucceeds(attempts: seq<Attempt>) {
    exists i :: 0 <= i < |attempts| && !attempts[i].insertFails
  }

  /**
   * Idempotence: redelivering an approved payload with a transaction id, any number
   * of times in sequence, leaves the table as it was when that id is already stored,
   * and otherwise adds its record at most once (exactly once if some insert succeeds),
   * provided the duplicate lookups do not error.
   */
  lemma {:induction false} RedeliveryIdempotent(p: Payload, env: Env, rows: seq<PurchaseRecord>, attempts: seq<Attempt>)
    requires EnvReady(env) && EmailOf(p) != "" && IsApproved(EventOf(p), p)
    requires TransactionOf(p) != ""
    requires forall i :: 0 <= i < |attempts| ==> !attempts[i].queryFails
    ensures CountTransaction(rows, TransactionOf(p)) > 0 ==> DeliverAll(BodyOf(p), env, rows, attempts) == rows
    ensures CountTransaction(rows, TransactionOf(p)) == 0 ==>
              DeliverAll(BodyOf(p), env, rows, attempts) ==
                if SomeInsertSucceeds(attempts) then rows + [RecordOf(p)] else rows
    decreases |attempts|
  {
    var tx := TransactionOf(p);
    if attempts != [] {
      var rest := attempts[1..];
      var next := RedeliveryStep(p, env, rows, attempts);
      if CountTransaction(rows, tx) > 0 {
        RedeliveryIdempotent(p, env, rows, rest);
      } else if attempts[0].insertFails {
        RedeliveryIdempotent(p, env, rows, rest);
        FailedAttemptChangesNothing(attempts);
      } else {
        CountAfterRecord(p, rows);
        RedeliveryIdempotent(p, env, next, rest);
        assert SomeInsertSucceeds(attempts);
      }
    }
  }

  /** The first of several deliveries, in terms of the table alone. */
  lemma RedeliveryStep(p: Payload, env: Env, rows: seq<PurchaseRecord>, attempts: seq<Attempt>)
    returns (next: seq<PurchaseRecord>)
    requires EnvReady(env) && EmailOf(p) != "" && IsApproved(EventOf(p), p)
    requires TransactionOf(p) != ""
    requires attempts != [] && forall i :: 0 <= i < |attempts| ==> !attempts[i].queryFails
    ensures next == if CountTransaction(rows, TransactionOf(p)) > 0 || attempts[0].insertFails then rows else rows + [RecordOf(p)]
    ensures DeliverAll(BodyOf(p), env, rows, attempts) == DeliverAll(BodyOf(p), env, next, attempts[1..])
    ensures forall i :: 0 <= i < |attempts[1..]| ==> !attempts[1..][i].queryFails
  {
    ApprovedDelivery(p, env, rows, attempts[0].insertFails);
    next := Deliver(BodyOf(p), env, rows, false, attempts[0].insertFails).1;
  }

  lemma FailedAttemptChangesNothing(attempts: seq<Attempt>)
    requires attempts != [] && attempts[0].insertFails
    ensures SomeInsertSucceeds(attempts) == SomeInsertSucceeds(attempts[1..])
  {
    var rest := attempts[1..];
    if SomeInsertSucceeds(attempts) {
      var i :| 0 <= i < |attempts| && !attempts[i].insertFails;
      assert i > 0 && !rest[i - 1].insertFails;
    }
    if SomeInsertSucceeds(rest) {
      var i :| 0 <= i < |rest| && !rest[i].insertFails;
      assert !attempts[i + 1].insertFails;
    }
  }

  /** Hence the table never holds more rows for that transaction id than it did, plus one. */
  lemma RedeliveryAddsAtMostOne(p: Payload, env: Env, rows: seq<PurchaseRecord>, attempts: seq<Attempt>)
    requires EnvReady(env) && EmailOf(p) != "" && IsApproved(EventOf(p), p)
    requires TransactionOf(p) != ""
    requires forall i :: 0 <= i < |attempts| ==> !attempts[i].queryFails
    ensures CountTransaction(rows, TransactionOf(p)) == 0 ==>
              CountTransaction(DeliverAll(BodyOf(p), env, rows, attempts), TransactionOf(p)) <= 1
    ensures |DeliverAll(BodyOf(p), env, rows, attempts)| <= |rows| + 1
  {
    var tx := TransactionOf(p);
    RedeliveryIdempotent(p, env, rows, attempts);
    if CountTransaction(rows, tx) == 0 && SomeInsertSucceeds(attempts) {
      CountAfterRecord(p, rows);
    }
  }

  /** A duplicate lookup that errors reads as "no match", so the same purchase is inserted again. */
  lemma FailedLookupInsertsAgain(p: Payload, env: Env, rows: seq<PurchaseRecord>)
    requires EnvReady(env) && EmailOf(p) != "" && IsApproved(EventOf(p), p)
    requires TransactionOf(p) != ""
    requires CountTransaction(rows, TransactionOf(p)) == 0
    ensures CountTransaction(DeliverAll(BodyOf(p), env, rows,
              [Attempt(false, false), Attempt(true, false)]), TransactionOf(p)) == 2
  {
    var once := rows + [RecordOf(p)];
    ApprovedDelivery(p, env, rows, false);
    FailedLookupAppends(p, env, once);
    DeliverAllTwo(BodyOf(p), env, rows, Attempt(false, false), Attempt(true, false));
    CountAfterRecord(p, rows);
    CountAfterRecord(p, once);
  }

  /** Two deliveries in sequence, one after the other. */
  lemma DeliverAllTwo(req: Request, env: Env, rows: seq<PurchaseRecord>, a: Attempt, b: Attempt)
    ensures DeliverAll(req, env, rows, [a, b]) ==
              Deliver(req, env, Deliver(req, env, rows, a.queryFails, a.insertFails).1, b.queryFails, b.insertFails).1
  {
    var mid := Deliver(req, env, rows, a.queryFails, a.insertFails).1;
    var last := Deliver(req, env, mid, b.queryFails, b.insertFails).1;
    assert [a, b][0] == a && [a, b][1..] == [b];
    assert DeliverAll(req, env, rows, [a, b]) == DeliverAll(req, env, mid, [b]);
    assert [b][0] == b && [b][1..] == [];
    assert DeliverAll(req, env, mid, [b]) == DeliverAll(req, env, last, []);
    assert DeliverAll(req, env, last, []) == last;
  }

  /** Deliveries without a transaction id are never deduplicated: each successful one appends. */
  lemma NoTransactionNeverDeduplicated(p: Payload, env: Env, rows: seq<PurchaseRecord>, qf: bool)
    requires EnvReady(env) && EmailOf(p) != "" && IsApproved(EventOf(p), p)
    requires TransactionOf(p) == ""
    ensures Deliver(BodyOf(p), env, rows, qf, false) == (Recorded, rows + [RecordOf(p)])
    ensures RecordOf(p).transactionId == None
  {
  }

  /** Two sequential calls of the handler with the same approved payload store at most one new row. */
  method RedeliverTwice(store: PurchaseStore, p: Payload, env: Env, insertFails1: bool, insertFails2: bool)
    returns (first: Response, second: Response)
    requires EnvReady(env) && EmailOf(p) != "" && IsApproved(EventOf(p), p) && TransactionOf(p) != ""
    modifies store
    ensures first == Recorded ==> second == Duplicate
    ensures |store.rows| <= |old(store.rows)| + 1
  {
    var rows := store.rows;
    first := HandleWebhook(store, BodyOf(p), env, false, insertFails1);
    if first == Recorded {
      CountAfterRecord(p, rows);
      CountedIsDuplicate(p, env, store.rows, insertFails2);
    }
    second := HandleWebhook(store, BodyOf(p), env, false, insertFails2);
  }
}

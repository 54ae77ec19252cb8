/**
 * The admin page (`src/pages/AdminPage.tsx`): choosing products with
 * checkboxes, granting access by inserting one purchase per chosen product,
 * the list of manually granted purchases, who gets to see the page, and the
 * guard in front of the push-notification form.
 */
module AdminPage {
  import opened Wrappers
  import opened Text
  import opened Tally
  import Catalog
  import opened Purchases

  // ---- `toggleSlug`.

  /** `xs.filter((s) => s !== x)`. */
  function Without(xs: seq<string>, x: string): (r: seq<string>)
    ensures x !in r
    ensures forall i :: 0 <= i < |xs| && xs[i] != x ==> xs[i] in r
    ensures forall i :: 0 <= i < |r| ==> r[i] in xs
    ensures |r| + Occ(xs, x) == |xs|
  {
    if xs == [] then []
    else
      var init := xs[..|xs| - 1];
      var r := Without(init, x);
      assert forall i :: 0 <= i < |xs| - 1 ==> xs[i] == init[i];
      if xs[|xs| - 1] == x then r else r + [xs[|xs| - 1]]
  }

  /** `prev.includes(slug) ? prev.filter((s) => s !== slug) : [...prev, slug]`. */
  function ToggleSlug(selected: seq<string>, slug: string): (r: seq<string>)
    ensures slug in r <==> slug !in selected
    ensures forall i :: 0 <= i < |selected| && selected[i] != slug ==> selected[i] in r
    ensures forall i :: 0 <= i < |r| && r[i] != slug ==> r[i] in selected
    ensures slug in selected ==> |r| == |selected| - Occ(selected, slug)
    ensures slug !in selected ==> |r| == |selected| + 1 && r[..|selected|] == selected && r[|selected|] == slug
  {
    if slug in selected then Without(selected, slug) else selected + [slug]
  }

  /** Filtering out a value the list does not hold changes nothing. */
  lemma {:induction false} WithoutAbsent(xs: seq<string>, x: string)
    requires x !in xs
    ensures Without(xs, x) == xs
  {
    if xs != [] {
      var init := xs[..|xs| - 1];
      assert x !in init by {
        assert forall i :: 0 <= i < |init| ==> init[i] == xs[i];
      }
      WithoutAbsent(init, x);
      assert xs == init + [xs[|xs| - 1]];
    }
  }

  /** A last element stays, at the end, exactly when it differs from the removed value. */
  lemma WithoutSnoc(xs: seq<string>, y: string, x: string)
    ensures Without(xs + [y], x) == Without(xs, x) + (if y == x then [] else [y])
  {
    var all := xs + [y];
    assert all[..|xs|] == xs && all[|xs|] == y;
    if y == x {
      assert Without(xs, x) + [] == Without(xs, x);
    }
  }

  /** Order: filtering two runs is filtering each and keeping them in sequence. */
  lemma {:induction false} WithoutAppend(a: seq<string>, b: seq<string>, x: string)
    ensures Without(a + b, x) == Without(a, x) + Without(b, x)
    decreases |b|
  {
    if b == [] {
      assert a + b == a;
      assert Without(a, x) + [] == Without(a, x);
    } else {
      var n := |b| - 1;
      var init, y := b[..n], b[n];
      var tail := if y == x then [] else [y];
      assert b == init + [y];
      assert a + b == (a + init) + [y];
      WithoutAppend(a, init, x);
      WithoutSnoc(a + init, y, x);
      WithoutSnoc(init, y, x);
      assert (Without(a, x) + Without(init, x)) + tail == Without(a, x) + (Without(init, x) + tail);
    }
  }

  /** Unticking a selected product keeps the other selected slugs in their order. */
  lemma ToggleSlugKeepsOrder(a: seq<string>, b: seq<string>, slug: string)
    requires slug in a + b
    ensures ToggleSlug(a + b, slug) == Without(a, slug) + Without(b, slug)
  {
    WithoutAppend(a, b, slug);
  }

  /** Ticking a product that was not selected and then unticking it restores the selection. */
  lemma ToggleTwiceRestores(selected: seq<string>, slug: string)
    requires slug !in selected
    ensures ToggleSlug(ToggleSlug(selected, slug), slug) == selected
  {
    var ticked := selected + [slug];
    assert ticked[..|ticked| - 1] == selected;
    WithoutAbsent(selected, slug);
  }

  /** Filtering keeps a duplicate-free list duplicate-free. */
  lemma {:induction false} WithoutDistinct(xs: seq<string>, x: string)
    requires Distinct(xs)
    ensures Distinct(Without(xs, x))
  {
    if xs != [] {
      var init := xs[..|xs| - 1];
      var last := xs[|xs| - 1];
      assert Distinct(init) by {
        forall i, j | 0 <= i < j < |init| ensures init[i] != init[j] {
          assert init[i] == xs[i] && init[j] == xs[j];
        }
      }
      WithoutDistinct(init, x);
      var r := Without(init, x);
      assert last !in r by {
        forall i | 0 <= i < |r| ensures r[i] != last {
          var k :| 0 <= k < |init| && init[k] == r[i];
          assert xs[k] == init[k];
        }
      }
    }
  }

  /** A selection made by toggling never lists a product twice. */
  lemma ToggleKeepsDistinct(selected: seq<string>, slug: string)
    requires Distinct(selected)
    ensures Distinct(ToggleSlug(selected, slug))
  {
    if slug in selected {
      WithoutDistinct(selected, slug);
    } else {
      var r := selected + [slug];
      forall i, j | 0 <= i < j < |r| ensures r[i] != r[j] {
        if j == |selected| {
          assert r[i] == selected[i];
        } else {
          assert r[i] == selected[i] && r[j] == selected[j];
        }
      }
    }
  }

  // ---- `handleGrantAccess`.

  /**
   * `product?.name ?? slug`, with `product = products.find((p) => p.slug === slug)`;
   * `products` is the page's copy of the catalog.
   */
  function GrantedName(products: seq<Catalog.Product>, slug: string): (name: string)
    ensures Catalog.FindBySlug(products, slug).Some? ==> name == Catalog.FindBySlug(products, slug).value.name
    ensures Catalog.FindBySlug(products, slug).None? ==> name == slug
  {
    match Catalog.FindBySlug(products, slug)
    case Some(p) => p.name
    case None => slug
  }

  /** With the page's catalog: a catalog product's row carries its name, any other slug is its own name. */
  lemma GrantedNameFromCatalog(slug: string)
    ensures forall p :: p in Catalog.Products && p.slug == slug ==> GrantedName(Catalog.GetProducts(), slug) == p.name
    ensures (forall p :: p in Catalog.Products ==> p.slug != slug) ==> GrantedName(Catalog.GetProducts(), slug) == slug
  {
    forall p | p in Catalog.Products && p.slug == slug ensures GrantedName(Catalog.GetProducts(), slug) == p.name {
      Catalog.LookupRoundTrip(p);
    }
  }

  /** The row inserted for one selected product. */
  function GrantRecord(products: seq<Catalog.Product>, email: string, slug: string): PurchaseRecord {
    PurchaseRecord(email, slug, GrantedName(products, slug), None, "approved")
  }

  /**
   * The rows that the grant loop adds for `slugs`, in order: one per slug
   * whose insert succeeded (`failed[i]` says the `i`-th insert returned an error,
   * which the loop does not look at).
   */
  function GrantRows(products: seq<Catalog.Product>, email: string, slugs: seq<string>, failed: seq<bool>): (rows: seq<PurchaseRecord>)
    requires |failed| == |slugs|
    ensures |rows| <= |slugs|
    ensures forall i :: 0 <= i < |rows| ==>
              rows[i].buyerEmail == email && rows[i].transactionId.None? && rows[i].status == "approved" && rows[i].productSlug in slugs
  {
    if slugs == [] then []
    else
      var n := |slugs| - 1;
      var rows := GrantRows(products, email, slugs[..n], failed[..n]);
      assert forall s :: s in slugs[..n] ==> s in slugs;
      if failed[n] then rows else rows + [GrantRecord(products, email, slugs[n])]
  }

  /** When every insert succeeds the grant adds exactly one row per selected product, in selection order. */
  lemma {:induction false} GrantRowsAllInserted(products: seq<Catalog.Product>, email: string, slugs: seq<string>, failed: seq<bool>)
    requires |failed| == |slugs|
    requires forall i :: 0 <= i < |failed| ==> !failed[i]
    ensures |GrantRows(products, email, slugs, failed)| == |slugs|
    ensures forall i :: 0 <= i < |slugs| ==> GrantRows(products, email, slugs, failed)[i] == GrantRecord(products, email, slugs[i])
  {
    if slugs != [] {
      var n := |slugs| - 1;
      GrantRowsAllInserted(products, email, slugs[..n], failed[..n]);
      var init := GrantRows(products, email, slugs[..n], failed[..n]);
      var rows := GrantRows(products, email, slugs, failed);
      assert !failed[n];
      assert rows == init + [GrantRecord(products, email, slugs[n])];
      forall i | 0 <= i < |slugs| ensures rows[i] == GrantRecord(products, email, slugs[i]) {
        if i < n {
          assert rows[i] == init[i] && slugs[..n][i] == slugs[i];
        }
      }
    }
  }

  /** The address the rows carry: `grantEmail.toLowerCase().trim()`. */
  function GrantEmail(typed: string): string {
    Trim(ToLower(typed))
  }

  /** An address that passes the blank check stays non-blank once normalised, since lower-casing keeps whitespace apart. */
  lemma GrantEmailNonBlank(typed: string)
    requires !Blank(typed)
    ensures GrantEmail(typed) != []
  {
    var i :| 0 <= i < |typed| && !IsSpace(typed[i]);
    LowerCharSpace(typed[i]);
    assert !IsSpace(ToLower(typed)[i]);
  }

  /** `select(...).is("hotmart_transaction_id", null).order("created_at", { ascending: false })`: manual grants, newest first. */
  function ManualPurchases(rows: seq<PurchaseRecord>): (manual: seq<PurchaseRecord>)
    ensures |manual| <= |rows|
  {
    if rows == [] then []
    else
      var n := |rows| - 1;
      var rest := ManualPurchases(rows[..n]);
      if rows[n].transactionId.None? then [rows[n]] + rest else rest
  }

  /** The manual list holds exactly the rows without a Hotmart transaction. */
  lemma {:induction false} ManualPurchasesMembers(rows: seq<PurchaseRecord>)
    ensures forall i :: 0 <= i < |ManualPurchases(rows)| ==>
              ManualPurchases(rows)[i].transactionId.None? && ManualPurchases(rows)[i] in rows
    ensures forall i :: 0 <= i < |rows| && rows[i].transactionId.None? ==> rows[i] in ManualPurchases(rows)
  {
    if rows != [] {
      var n := |rows| - 1;
      ManualPurchasesMembers(rows[..n]);
      assert forall r :: r in rows[..n] ==> r in rows;
      assert forall i :: 0 <= i < n ==> rows[i] == rows[..n][i];
    }
  }

  /**
   * Newest first: rows are appended in creation order, so a manual row added
   * after the others heads the list, with the older manual rows behind it.
   */
  lemma ManualPurchasesSnoc(rows: seq<PurchaseRecord>, r: PurchaseRecord)
    ensures ManualPurchases(rows + [r]) == (if r.transactionId.None? then [r] else []) + ManualPurchases(rows)
  {
    assert (rows + [r])[..|rows|] == rows;
  }

  /** Every manual row of a later batch comes before every manual row of an earlier one. */
  lemma {:induction false} ManualPurchasesAppend(older: seq<PurchaseRecord>, newer: seq<PurchaseRecord>)
    ensures ManualPurchases(older + newer) == ManualPurchases(newer) + ManualPurchases(older)
    decreases |newer|
  {
    if newer == [] {
      assert older + newer == older;
    } else {
      var n := |newer| - 1;
      var init, last := newer[..n], newer[n];
      assert newer == init + [last];
      assert older + newer == (older + init) + [last];
      ManualPurchasesAppend(older, init);
      ManualPurchasesSnoc(older + init, last);
      ManualPurchasesSnoc(init, last);
    }
  }

  /** Every row a grant adds shows up in the manual list. */
  lemma GrantsAreManual(products: seq<Catalog.Product>, before: seq<PurchaseRecord>, email: string,
                         slugs: seq<string>, failed: seq<bool>, k: nat)
    requires |failed| == |slugs|
    requires k < |GrantRows(products, email, slugs, failed)|
    ensures GrantRows(products, email, slugs, failed)[k] in ManualPurchases(before + GrantRows(products, email, slugs, failed))
  {
    var all := before + GrantRows(products, email, slugs, failed);
    assert all[|before| + k] == GrantRows(products, email, slugs, failed)[k];
    ManualPurchasesMembers(all);
  }

  /** The `for (const slug of selectedSlugs)` loop: one insert per slug, whatever the previous inserts returned. */
  method InsertGrants(store: PurchaseStore, products: seq<Catalog.Product>, email: string, slugs: seq<string>, failed: seq<bool>)
    requires |failed| == |slugs|
    modifies store
    ensures store.rows == old(store.rows) + GrantRows(products, email, slugs, failed)
  {
    var i := 0;
    while i < |slugs|
      invariant i <= |slugs|
      invariant store.rows == old(store.rows) + GrantRows(products, email, slugs[..i], failed[..i])
    {
      assert slugs[..i + 1][..i] == slugs[..i] && failed[..i + 1][..i] == failed[..i];
      var ok := store.Insert(GrantRecord(products, email, slugs[i]), failed[i]);
      i := i + 1;
    }
    assert slugs[..i] == slugs && failed[..i] == failed;
  }

  // ---- Who sees the page.

  datatype View = Spinner | RedirectHome | Panel

  /**
   * The `isAdmin` state once the role check settled: `null` while nobody is signed
   * in (the effect returns before asking), otherwise `!!data` of the `has_role` call
   * (`rpcData` is `None` when the call returned no data).
   */
  function AdminRole(signedIn: bool, rpcData: Option<bool>): (isAdmin: Option<bool>)
    ensures isAdmin.None? <==> !signedIn
    ensures isAdmin == Some(true) <==> signedIn && rpcData == Some(true)
  {
    if !signedIn then None else Some(rpcData == Some(true))
  }

  /** The page's render decision, as written. */
  function PageView(authLoading: bool, signedIn: bool, isAdmin: Option<bool>): (v: View)
    ensures v == Spinner <==> authLoading || isAdmin.None?
    ensures v == Panel <==> !authLoading && signedIn && isAdmin == Some(true)
  {
    if authLoading || isAdmin.None? then Spinner
    else if !signedIn || !isAdmin.value then RedirectHome
    else Panel
  }

  /** Only a signed-in administrator gets the panel. */
  lemma PanelOnlyForAdmins(authLoading: bool, signedIn: bool, rpcData: Option<bool>)
    ensures PageView(authLoading, signedIn, AdminRole(signedIn, rpcData)) == Panel
            <==> !authLoading && signedIn && rpcData == Some(true)
  {
  }

  /**
   * As written, a visitor who is not signed in never gets past the spinner: the
   * role stays `null`, and the redirect for "no user" is only reached by someone
   * who signed out after a role check.
   */
  lemma SignedOutSpinsForever(rpcData: Option<bool>)
    ensures PageView(false, false, AdminRole(false, rpcData)) == Spinner
  {
  }

  /** The evident intent: once authentication has settled, a visitor without a session is sent home. */
  function PageViewIntended(authLoading: bool, signedIn: bool, isAdmin: Option<bool>): (v: View)
    ensures v == Panel <==> !authLoading && signedIn && isAdmin == Some(true)
    ensures !authLoading && !signedIn ==> v == RedirectHome
    ensures signedIn ==> v == PageView(authLoading, signedIn, isAdmin)
  {
    if authLoading then Spinner
    else if !signedIn then RedirectHome
    else PageView(authLoading, signedIn, isAdmin)
  }

  /** With the intended decision a signed-out visitor is redirected, whatever the role check would say. */
  lemma SignedOutRedirected(rpcData: Option<bool>)
    ensures PageViewIntended(false, false, AdminRole(false, rpcData)) == RedirectHome
  {
  }

  // ---- The notification form.

  /** `!notifTitle.trim() || !notifMessage.trim()` is false: both fields hold something besides whitespace. */
  predicate CanSendNotification(title: string, message: string) {
    !Blank(title) && !Blank(message)
  }

  // ---- The page state.

  /** The result of pressing "Conceder Acesso". */
  datatype GrantOutcome = MissingInput | Granted

  /** The component state, with the `purchases` table it writes to held separately. */
  class AdminPanel {
    /** `const products = getProducts()`. */
    const products: seq<Catalog.Product>
    var grantEmail: string
    var selectedSlugs: seq<string>
    var granting: bool
    var manualPurchases: seq<PurchaseRecord>
    var notifTitle: string
    var notifMessage: string
    var sending: bool

    /**
     * Between two handlers: the selection lists each product at most once, the manual list
     * holds only rows without a transaction, and no grant or send is in progress.
     */
    predicate Valid()
      reads this
    {
      && !granting && !sending
      && Distinct(selectedSlugs)
      && forall i :: 0 <= i < |manualPurchases| ==> manualPurchases[i].transactionId.None?
    }

    constructor ()
      ensures Valid()
      ensures products == Catalog.GetProducts()
      ensures grantEmail == "" && selectedSlugs == [] && !granting && manualPurchases == []
      ensures notifTitle == "" && notifMessage == "" && !sending
    {
      products := Catalog.GetProducts();
      grantEmail, selectedSlugs, granting, manualPurchases := "", [], false, [];
      notifTitle, notifMessage, sending := "", "", false;
    }

    /** The checkbox of `slug` changed. */
    method Toggle(slug: string)
      requires Valid()
      modifies this
      ensures Valid()
      ensures selectedSlugs == ToggleSlug(old(selectedSlugs), slug)
      ensures grantEmail == old(grantEmail) && manualPurchases == old(manualPurchases)
      ensures notifTitle == old(notifTitle) && notifMessage == old(notifMessage)
    {
      ToggleKeepsDistinct(selectedSlugs, slug);
      selectedSlugs := ToggleSlug(selectedSlugs, slug);
    }

    /** `fetchManualPurchases`: `data ?? []`, so a failed query empties the list. */
    method FetchManualPurchases(store: PurchaseStore, queryFails: bool)
      requires Valid()
      modifies this
      ensures Valid()
      ensures manualPurchases == if queryFails then [] else ManualPurchases(store.rows)
      ensures grantEmail == old(grantEmail) && selectedSlugs == old(selectedSlugs)
      ensures notifTitle == old(notifTitle) && notifMessage == old(notifMessage)
    {
      if queryFails {
        manualPurchases := [];
      } else {
        ManualPurchasesMembers(store.rows);
        manualPurchases := ManualPurchases(store.rows);
      }
    }

    /** The body of `handleGrantAccess` once both inputs are present, for an already normalised `email`. */
    method CompleteGrant(store: PurchaseStore, email: string, failed: seq<bool>, listFails: bool)
      requires Valid()
      requires |failed| == |selectedSlugs|
      modifies this, store
      ensures Valid()
      ensures store.rows == old(store.rows) + GrantRows(products, email, old(selectedSlugs), failed)
      ensures grantEmail == "" && selectedSlugs == []
      ensures manualPurchases == if listFails then [] else ManualPurchases(store.rows)
      ensures notifTitle == old(notifTitle) && notifMessage == old(notifMessage)
    {
      granting := true;
      InsertGrants(store, products, email, selectedSlugs, failed);
      grantEmail, selectedSlugs, granting := "", [], false;
      FetchManualPurchases(store, listFails);
    }

    /**
     * `handleGrantAccess`. `failed[i]` says whether the insert for the `i`-th
     * selected product returned an error, and `listFails` whether the final
     * `fetchManualPurchases` query did.
     */
    method HandleGrantAccess(store: PurchaseStore, failed: seq<bool>, listFails: bool) returns (outcome: GrantOutcome)
      requires Valid()
      requires |failed| == |selectedSlugs|
      modifies this, store
      ensures Valid()
      ensures outcome == MissingInput <==> Blank(old(grantEmail)) || old(selectedSlugs) == []
      ensures outcome == MissingInput ==>
                store.rows == old(store.rows) && grantEmail == old(grantEmail) && selectedSlugs == old(selectedSlugs)
                && manualPurchases == old(manualPurchases)
      ensures outcome == Granted ==>
                && store.rows == old(store.rows) + GrantRows(products, GrantEmail(old(grantEmail)), old(selectedSlugs), failed)
                && grantEmail == "" && selectedSlugs == []
                && manualPurchases == if listFails then [] else ManualPurchases(store.rows)
      ensures notifTitle == old(notifTitle) && notifMessage == old(notifMessage)
    {
      if Blank(grantEmail) || selectedSlugs == [] {
        return MissingInput;
      }
      CompleteGrant(store, GrantEmail(grantEmail), failed, listFails);
      return Granted;
    }

    /**
     * `handleSendNotification`: nothing happens unless both fields are filled;
     * `invokeFails` says whether the `send-notification` call returned an error,
     * in which case the fields keep what was typed.
     */
    method HandleSendNotification(invokeFails: bool) returns (sent: bool)
      requires Valid()
      modifies this
      ensures Valid()
      ensures sent <==> CanSendNotification(old(notifTitle), old(notifMessage)) && !invokeFails
      ensures sent ==> notifTitle == "" && notifMessage == ""
      ensures !sent ==> notifTitle == old(notifTitle) && notifMessage == old(notifMessage)
      ensures grantEmail == old(grantEmail) && selectedSlugs == old(selectedSlugs)
      ensures manualPurchases == old(manualPurchases)
    {
      if !CanSendNotification(notifTitle, notifMessage) {
        return false;
      }
      sending := true;
      sent := !invokeFails;
      if sent {
        notifTitle, notifMessage := "", "";
      }
      sending := false;
    }
  }
}

/**
 * The product editor of the admin area (`src/components/admin/ProductManager.tsx`):
 * the `products` table, the normalised payload that a save writes, the
 * benefit and FAQ list edits on the open form, and the component state that
 * `startNew`, `handleSave`, `handleDelete` and `toggleActive` update.
 */
module ProductManager {
  import opened Wrappers
  import opened Text

  datatype Faq = Faq(q: string, a: string)

  /** `Omit<ProductRow, "id">`: the columns a form edits and a save writes. */
  datatype ProductFields = ProductFields(
    slug: string,
    name: string,
    priceText: string,
    shortDescription: string,
    description: string,
    coverImageUrl: string,
    galleryImageUrls: seq<string>,
    benefits: seq<string>,
    faqs: seq<Faq>,
    hotmartCheckoutUrl: string,
    wistiaMediaId: Option<string>,
    wistiaAspect: Option<string>,
    wistiaMediaId2: Option<string>,
    wistiaAspect2: Option<string>,
    videoDividerText: Option<string>,
    drivePreviewFolderId: Option<string>,
    sortOrder: int,
    isActive: bool)

  /** A row of the `products` table: the database id and the columns. */
  datatype ProductRow = ProductRow(id: string, fields: ProductFields)

  /** `emptyProduct`. */
  const EmptyProduct: ProductFields :=
    ProductFields("", "", "\U{20AC}0,00", "", "", "", [], [], [], "",
                  None, None, None, None, None, None, 0, true)

  // ---- `startNew`.

  /** The form `startNew` opens: `{ ...emptyProduct, id: "", sort_order: products.length + 1 }`. */
  function NewProduct(count: nat): (r: ProductRow)
    ensures r.id == "" && r.fields.sortOrder == count + 1
    ensures r.fields.(sortOrder := 0) == EmptyProduct
  {
    ProductRow("", EmptyProduct.(sortOrder := count + 1))
  }

  // ---- `handleSave`: validation and payload.

  /** `editing.name.trim() && editing.slug.trim()`: the only check before a write. */
  predicate CanSave(e: ProductFields) {
    !Blank(e.name) && !Blank(e.slug)
  }

  /** A fresh form is rejected until a name and a slug are typed. */
  lemma NewProductRejected(count: nat)
    ensures !CanSave(NewProduct(count).fields)
  {
    assert NewProduct(count).fields.name == [];
  }

  /** `value?.trim() || null`: an absent or blank optional field is stored as null. */
  function TrimOrNull(o: Option<string>): (r: Option<string>)
    ensures r.None? <==> o.None? || Blank(o.value)
    ensures r.Some? ==> r.value != [] && Unpadded(r.value)
  {
    if o.None? || Trim(o.value) == [] then None else Some(Trim(o.value))
  }

  /** What `TrimOrNull` stores for a field that was already trimmed or null. */
  predicate NormalOptional(o: Option<string>) {
    o.None? || (o.value != [] && Unpadded(o.value))
  }

  /** A payload as `handleSave` writes it: no string with surrounding whitespace, no empty optional string. */
  predicate Normalised(p: ProductFields) {
    && Unpadded(p.slug) && Unpadded(p.name) && Unpadded(p.priceText)
    && Unpadded(p.shortDescription) && Unpadded(p.description) && Unpadded(p.coverImageUrl)
    && Unpadded(p.hotmartCheckoutUrl)
    && NormalOptional(p.wistiaMediaId) && NormalOptional(p.wistiaAspect)
    && NormalOptional(p.wistiaMediaId2) && NormalOptional(p.wistiaAspect2)
    && NormalOptional(p.videoDividerText) && NormalOptional(p.drivePreviewFolderId)
  }

  /** The `payload` object of `handleSave`. */
  function BuildPayload(e: ProductFields): (p: ProductFields)
    ensures Normalised(p)
    ensures p.name == [] <==> Blank(e.name)
    ensures p.slug == [] <==> Blank(e.slug)
    ensures p.galleryImageUrls == e.galleryImageUrls && p.benefits == e.benefits && p.faqs == e.faqs
    ensures p.sortOrder == e.sortOrder && p.isActive == e.isActive
  {
    ProductFields(
      Trim(e.slug), Trim(e.name), Trim(e.priceText), Trim(e.shortDescription),
      Trim(e.description), Trim(e.coverImageUrl),
      e.galleryImageUrls, e.benefits, e.faqs,
      Trim(e.hotmartCheckoutUrl),
      TrimOrNull(e.wistiaMediaId), TrimOrNull(e.wistiaAspect),
      TrimOrNull(e.wistiaMediaId2), TrimOrNull(e.wistiaAspect2),
      TrimOrNull(e.videoDividerText), TrimOrNull(e.drivePreviewFolderId),
      e.sortOrder, e.isActive)
  }

  /** An already normalised optional field is stored as it is. */
  lemma TrimOrNullNormal(o: Option<string>)
    requires NormalOptional(o)
    ensures TrimOrNull(o) == o
  {
    if o.Some? {
      TrimUnpadded(o.value);
    }
  }

  /** Saving a row that was itself written by a save writes the same columns again. */
  lemma {:induction false} BuildPayloadNormal(p: ProductFields)
    requires Normalised(p)
    ensures BuildPayload(p) == p
  {
    TrimUnpadded(p.slug);
    TrimUnpadded(p.name);
    TrimUnpadded(p.priceText);
    TrimUnpadded(p.shortDescription);
    TrimUnpadded(p.description);
    TrimUnpadded(p.coverImageUrl);
    TrimUnpadded(p.hotmartCheckoutUrl);
    TrimOrNullNormal(p.wistiaMediaId);
    TrimOrNullNormal(p.wistiaAspect);
    TrimOrNullNormal(p.wistiaMediaId2);
    TrimOrNullNormal(p.wistiaAspect2);
    TrimOrNullNormal(p.videoDividerText);
    TrimOrNullNormal(p.drivePreviewFolderId);
  }

  /** Building a payload twice changes nothing the first build did not. */
  lemma BuildPayloadIdempotent(e: ProductFields)
    ensures BuildPayload(BuildPayload(e)) == BuildPayload(e)
  {
    BuildPayloadNormal(BuildPayload(e));
  }

  // ---- Benefit and FAQ lists.

  /** `xs.filter((_, idx) => idx !== i)`. */
  function RemoveAt<T>(xs: seq<T>, i: int): (r: seq<T>)
    ensures 0 <= i < |xs| ==> r == xs[..i] + xs[i + 1..]
    ensures !(0 <= i < |xs|) ==> r == xs
  {
    if xs == [] then []
    else
      var rest := RemoveAt(xs[1..], i - 1);
      assert 0 < i < |xs| ==> xs[..i] == [xs[0]] + xs[1..][..i - 1] && xs[i + 1..] == xs[1..][i..];
      (if i == 0 then [] else [xs[0]]) + rest
  }

  /** `addBenefit` on the form: blank input is ignored, otherwise its trim goes at the end. */
  function AddBenefit(e: ProductFields, input: string): (r: ProductFields)
    ensures Blank(input) ==> r == e
    ensures !Blank(input) ==> r == e.(benefits := e.benefits + [Trim(input)]) && Trim(input) != []
  {
    if Blank(input) then e else e.(benefits := e.benefits + [Trim(input)])
  }

  /** `addFaq` on the form: both inputs must be non-blank, then the trimmed pair goes at the end. */
  function AddFaq(e: ProductFields, q: string, a: string): (r: ProductFields)
    ensures Blank(q) || Blank(a) ==> r == e
    ensures !Blank(q) && !Blank(a) ==>
              && r == e.(faqs := e.faqs + [Faq(Trim(q), Trim(a))])
              && Trim(q) != [] && Trim(a) != []
  {
    if Blank(q) || Blank(a) then e else e.(faqs := e.faqs + [Faq(Trim(q), Trim(a))])
  }

  /** Removing the benefit just added gives back the list before it. */
  lemma RemoveAddedBenefit(e: ProductFields, input: string)
    requires !Blank(input)
    ensures RemoveAt(AddBenefit(e, input).benefits, |e.benefits|) == e.benefits
  {
    var bs := AddBenefit(e, input).benefits;
    assert bs[..|e.benefits|] == e.benefits;
  }

  /** Removing the FAQ just added gives back the list before it. */
  lemma RemoveAddedFaq(e: ProductFields, q: string, a: string)
    requires !Blank(q) && !Blank(a)
    ensures RemoveAt(AddFaq(e, q, a).faqs, |e.faqs|) == e.faqs
  {
    var fs := AddFaq(e, q, a).faqs;
    assert fs[..|e.faqs|] == e.faqs;
  }

  /** Removal keeps every other element, in order: element `j` moves down by one exactly when it was after `i`. */
  lemma RemoveAtShifts<T>(xs: seq<T>, i: nat, j: nat)
    requires i < |xs| && j < |xs| - 1
    ensures RemoveAt(xs, i)[j] == if j < i then xs[j] else xs[j + 1]
  {
  }

  // ---- `updateField`.

  /** `keyof ProductRow`. */
  datatype Field =
    | Id | Slug | Name | PriceText | ShortDescription | Description | CoverImageUrl
    | GalleryImageUrls | Benefits | Faqs | HotmartCheckoutUrl
    | WistiaMediaId | WistiaAspect | WistiaMediaId2 | WistiaAspect2
    | VideoDividerText | DrivePreviewFolderId | SortOrder | IsActive

  /** A value the form can put in a field, by column type. */
  datatype Value =
    | Str(s: string)
    | MaybeText(o: Option<string>)
    | Texts(l: seq<string>)
    | FaqList(f: seq<Faq>)
    | Number(n: int)
    | Flag(b: bool)

  /** The column type of each field. */
  predicate Fits(f: Field, v: Value) {
    match f
    case GalleryImageUrls | Benefits => v.Texts?
    case Faqs => v.FaqList?
    case WistiaMediaId | WistiaAspect | WistiaMediaId2 | WistiaAspect2
       | VideoDividerText | DrivePreviewFolderId => v.MaybeText?
    case SortOrder => v.Number?
    case IsActive => v.Flag?
    case _ => v.Str?
  }

  /** `row[field]`. */
  function Get(r: ProductRow, f: Field): (v: Value)
    ensures Fits(f, v)
  {
    var p := r.fields;
    match f
    case Id => Str(r.id)
    case Slug => Str(p.slug)
    case Name => Str(p.name)
    case PriceText => Str(p.priceText)
    case ShortDescription => Str(p.shortDescription)
    case Description => Str(p.description)
    case CoverImageUrl => Str(p.coverImageUrl)
    case GalleryImageUrls => Texts(p.galleryImageUrls)
    case Benefits => Texts(p.benefits)
    case Faqs => FaqList(p.faqs)
    case HotmartCheckoutUrl => Str(p.hotmartCheckoutUrl)
    case WistiaMediaId => MaybeText(p.wistiaMediaId)
    case WistiaAspect => MaybeText(p.wistiaAspect)
    case WistiaMediaId2 => MaybeText(p.wistiaMediaId2)
    case WistiaAspect2 => MaybeText(p.wistiaAspect2)
    case VideoDividerText => MaybeText(p.videoDividerText)
    case DrivePreviewFolderId => MaybeText(p.drivePreviewFolderId)
    case SortOrder => Number(p.sortOrder)
    case IsActive => Flag(p.isActive)
  }

  /** `{ ...editing, [field]: value }`. */
  function SetField(r: ProductRow, f: Field, v: Value): (r': ProductRow)
    requires Fits(f, v)
  {
    var p := r.fields;
    match f
    case Id => r.(id := v.s)
    case Slug => r.(fields := p.(slug := v.s))
    case Name => r.(fields := p.(name := v.s))
    case PriceText => r.(fields := p.(priceText := v.s))
    case ShortDescription => r.(fields := p.(shortDescription := v.s))
    case Description => r.(fields := p.(description := v.s))
    case CoverImageUrl => r.(fields := p.(coverImageUrl := v.s))
    case GalleryImageUrls => r.(fields := p.(galleryImageUrls := v.l))
    case Benefits => r.(fields := p.(benefits := v.l))
    case Faqs => r.(fields := p.(faqs := v.f))
    case HotmartCheckoutUrl => r.(fields := p.(hotmartCheckoutUrl := v.s))
    case WistiaMediaId => r.(fields := p.(wistiaMediaId := v.o))
    case WistiaAspect => r.(fields := p.(wistiaAspect := v.o))
    case WistiaMediaId2 => r.(fields := p.(wistiaMediaId2 := v.o))
    case WistiaAspect2 => r.(fields := p.(wistiaAspect2 := v.o))
    case VideoDividerText => r.(fields := p.(videoDividerText := v.o))
    case DrivePreviewFolderId => r.(fields := p.(drivePreviewFolderId := v.o))
    case SortOrder => r.(fields := p.(sortOrder := v.n))
    case IsActive => r.(fields := p.(isActive := v.b))
  }

  /** The named field reads back the value written. */
  lemma GetSetSame(r: ProductRow, f: Field, v: Value)
    requires Fits(f, v)
    ensures Get(SetField(r, f, v), f) == v
  {
  }

  /** Every other field keeps its value. */
  lemma GetSetOther(r: ProductRow, f: Field, g: Field, v: Value)
    requires Fits(f, v) && g != f
    ensures Get(SetField(r, f, v), g) == Get(r, g)
  {
    // One case per written field, so that each needs only the other eighteen reads.
    match f
    case Id => {}
    case Slug => {}
    case Name => {}
    case PriceText => {}
    case ShortDescription => {}
    case Description => {}
    case CoverImageUrl => {}
    case GalleryImageUrls => {}
    case Benefits => {}
    case Faqs => {}
    case HotmartCheckoutUrl => {}
    case WistiaMediaId => {}
    case WistiaAspect => {}
    case WistiaMediaId2 => {}
    case WistiaAspect2 => {}
    case VideoDividerText => {}
    case DrivePreviewFolderId => {}
    case SortOrder => {}
    case IsActive => {}
  }

  /** Writing a field back with the value it already holds leaves the row as it was. */
  lemma SetFieldCurrent(r: ProductRow, f: Field)
    ensures SetField(r, f, Get(r, f)) == r
  {
  }

  // ---- The `products` table.

  /** `update(payload).eq("id", id)`: every row with that id takes the new columns. */
  function UpdateById(rows: seq<ProductRow>, id: string, payload: ProductFields): (r: seq<ProductRow>)
    ensures |r| == |rows|
    ensures forall i :: 0 <= i < |r| ==> r[i].id == rows[i].id
    ensures forall i :: 0 <= i < |r| ==> r[i].fields == if rows[i].id == id then payload else rows[i].fields
  {
    if rows == [] then []
    else
      var n := |rows| - 1;
      var row := if rows[n].id == id then rows[n].(fields := payload) else rows[n];
      UpdateById(rows[..n], id, payload) + [row]
  }

  /** `update({ is_active: active }).eq("id", id)`. */
  function SetActiveById(rows: seq<ProductRow>, id: string, active: bool): (r: seq<ProductRow>)
    ensures |r| == |rows|
    ensures forall i :: 0 <= i < |r| ==> r[i].id == rows[i].id
    ensures forall i :: 0 <= i < |r| ==>
              r[i].fields == if rows[i].id == id then rows[i].fields.(isActive := active) else rows[i].fields
  {
    if rows == [] then []
    else
      var n := |rows| - 1;
      var row := if rows[n].id == id then rows[n].(fields := rows[n].fields.(isActive := active)) else rows[n];
      SetActiveById(rows[..n], id, active) + [row]
  }

  /** `delete().eq("id", id)`: the rows with that id go, the others stay in order. */
  function DeleteById(rows: seq<ProductRow>, id: string): (r: seq<ProductRow>)
    ensures |r| <= |rows|
    ensures forall i :: 0 <= i < |r| ==> r[i].id != id && r[i] in rows
    ensures forall i :: 0 <= i < |rows| && rows[i].id != id ==> rows[i] in r
  {
    if rows == [] then []
    else
      var n := |rows| - 1;
      var rest := DeleteById(rows[..n], id);
      assert forall x :: x in rows[..n] ==> x in rows;
      assert forall i :: 0 <= i < n ==> rows[i] == rows[..n][i];
      if rows[n].id == id then rest else rest + [rows[n]]
  }

  /** The last row stays exactly when its id differs. */
  lemma DeleteByIdSnoc(rows: seq<ProductRow>, x: ProductRow, id: string)
    ensures DeleteById(rows + [x], id) == DeleteById(rows, id) + (if x.id == id then [] else [x])
  {
    var all := rows + [x];
    assert all[..|rows|] == rows && all[|rows|] == x;
    if x.id == id {
      assert DeleteById(all, id) == DeleteById(rows, id);
      assert DeleteById(rows, id) + [] == DeleteById(rows, id);
    } else {
      assert DeleteById(all, id) == DeleteById(rows, id) + [x];
    }
  }

  /**
   * Order: deleting from two runs of rows is deleting from each and keeping
   * them in sequence.
   */
  lemma {:induction false} DeleteByIdAppend(a: seq<ProductRow>, b: seq<ProductRow>, id: string)
    ensures DeleteById(a + b, id) == DeleteById(a, id) + DeleteById(b, id)
    decreases |b|
  {
    if b == [] {
      assert a + b == a;
      assert DeleteById(a, id) + [] == DeleteById(a, id);
    } else {
      var n := |b| - 1;
      var init, x := b[..n], b[n];
      var tail := if x.id == id then [] else [x];
      assert b == init + [x];
      assert a + b == (a + init) + [x];
      DeleteByIdAppend(a, init, id);
      DeleteByIdSnoc(a + init, x, id);
      DeleteByIdSnoc(init, x, id);
      assert (DeleteById(a, id) + DeleteById(init, id)) + tail == DeleteById(a, id) + (DeleteById(init, id) + tail);
    }
  }

  /** Updating an id no row carries changes nothing. */
  lemma UpdateMissingId(rows: seq<ProductRow>, id: string, payload: ProductFields)
    requires forall i :: 0 <= i < |rows| ==> rows[i].id != id
    ensures UpdateById(rows, id, payload) == rows
  {
    var r := UpdateById(rows, id, payload);
    assert forall i :: 0 <= i < |r| ==> r[i] == rows[i];
  }

  /** Toggling twice with the row's own negated flag gives back the row's flag. */
  lemma ToggleTwice(rows: seq<ProductRow>, k: nat)
    requires k < |rows|
    ensures var once := SetActiveById(rows, rows[k].id, !rows[k].fields.isActive);
            SetActiveById(once, once[k].id, !once[k].fields.isActive)[k] == rows[k]
  {
    var once := SetActiveById(rows, rows[k].id, !rows[k].fields.isActive);
    assert once[k].id == rows[k].id && once[k].fields.isActive == !rows[k].fields.isActive;
  }

  /** The `products` table. */
  class ProductsTable {
    var rows: seq<ProductRow>

    constructor (initial: seq<ProductRow>)
      ensures rows == initial
    {
      rows := initial;
    }

    /** `insert(payload)`: `newId` is the id the database assigns; `fails` whether it returned an error. */
    method Insert(newId: string, payload: ProductFields, fails: bool) returns (ok: bool)
      modifies this
      ensures ok == !fails
      ensures rows == if ok then old(rows) + [ProductRow(newId, payload)] else old(rows)
    {
      ok := !fails;
      if ok {
        rows := rows + [ProductRow(newId, payload)];
      }
    }

    method Update(id: string, payload: ProductFields, fails: bool) returns (ok: bool)
      modifies this
      ensures ok == !fails
      ensures rows == if ok then UpdateById(old(rows), id, payload) else old(rows)
    {
      ok := !fails;
      if ok {
        rows := UpdateById(rows, id, payload);
      }
    }

    method SetActive(id: string, active: bool, fails: bool) returns (ok: bool)
      modifies this
      ensures ok == !fails
      ensures rows == if ok then SetActiveById(old(rows), id, active) else old(rows)
    {
      ok := !fails;
      if ok {
        rows := SetActiveById(rows, id, active);
      }
    }

    method Delete(id: string, fails: bool) returns (ok: bool)
      modifies this
      ensures ok == !fails
      ensures rows == if ok then DeleteById(old(rows), id) else old(rows)
    {
      ok := !fails;
      if ok {
        rows := DeleteById(rows, id);
      }
    }
  }

  datatype SaveOutcome =
    | NoForm    // `if (!editing) return`
    | Rejected  // blank name or slug: the error toast, no write
    | Failed    // the insert or update returned an error
    | Saved

  /** The state of the `ProductManager` component. */
  class ManagerPanel {
    var products: seq<ProductRow>
    var loading: bool
    var editing: Option<ProductRow>
    var isNew: bool
    var saving: bool
    var benefitInput: string
    var faqQ: string
    var faqA: string
    var showAdvanced: bool

    /** Between handlers no save is in flight, and a new-product form is open whenever `isNew` is set. */
    predicate Valid()
      reads this
    {
      !saving && (isNew ==> editing.Some?)
    }

    constructor ()
      ensures Valid()
      ensures products == [] && loading && editing == None && !isNew
      ensures benefitInput == "" && faqQ == "" && faqA == "" && !showAdvanced
    {
      products, loading, editing, isNew, saving := [], true, None, false, false;
      benefitInput, faqQ, faqA, showAdvanced := "", "", "", false;
    }

    /** `fetchProducts`: `data ?? []`, so a failed query empties the list; the form is not touched. */
    method FetchProducts(table: ProductsTable, queryFails: bool)
      requires Valid()
      modifies this
      ensures Valid()
      ensures products == (if queryFails then [] else table.rows) && !loading
      ensures editing == old(editing) && isNew == old(isNew)
      ensures benefitInput == old(benefitInput) && faqQ == old(faqQ) && faqA == old(faqA)
      ensures showAdvanced == old(showAdvanced)
    {
      loading := true;
      products := if queryFails then [] else table.rows;
      loading := false;
    }

    /** `startNew`. */
    method StartNew()
      requires Valid()
      modifies this
      ensures Valid()
      ensures editing == Some(NewProduct(|products|)) && isNew
      ensures benefitInput == "" && faqQ == "" && faqA == "" && !showAdvanced
      ensures products == old(products) && loading == old(loading)
    {
      editing, isNew, showAdvanced := Some(NewProduct(|products|)), true, false;
      benefitInput, faqQ, faqA := "", "", "";
    }

    /** `startEdit`: the form opens on a copy of the row. */
    method StartEdit(p: ProductRow)
      requires Valid()
      modifies this
      ensures Valid()
      ensures editing == Some(p) && !isNew
      ensures benefitInput == "" && faqQ == "" && faqA == "" && !showAdvanced
      ensures products == old(products) && loading == old(loading)
    {
      editing, isNew, showAdvanced := Some(p), false, false;
      benefitInput, faqQ, faqA := "", "", "";
    }

    /** `cancel`. */
    method Cancel()
      requires Valid()
      modifies this
      ensures Valid()
      ensures editing == None && !isNew
      ensures benefitInput == old(benefitInput) && faqQ == old(faqQ) && faqA == old(faqA)
      ensures products == old(products) && loading == old(loading) && showAdvanced == old(showAdvanced)
    {
      editing, isNew := None, false;
    }

    /** The part of `handleSave` after validation, for an already built payload. */
    method CompleteSave(table: ProductsTable, id: string, payload: ProductFields, newId: string, fails: bool, listFails: bool)
      returns (ok: bool)
      requires Valid()
      modifies this, table
      ensures Valid()
      ensures ok == !fails
      ensures table.rows == if !ok then old(table.rows)
                            else if old(isNew) then old(table.rows) + [ProductRow(newId, payload)]
                            else UpdateById(old(table.rows), id, payload)
      ensures !ok ==> editing == old(editing) && isNew == old(isNew) && products == old(products)
      ensures ok ==> editing == None && !isNew && products == if listFails then [] else table.rows
      ensures benefitInput == old(benefitInput) && faqQ == old(faqQ) && faqA == old(faqA)
      ensures showAdvanced == old(showAdvanced)
    {
      saving := true;
      if isNew {
        ok := table.Insert(newId, payload, fails);
      } else {
        ok := table.Update(id, payload, fails);
      }
      saving := false;
      if !ok {
        return;
      }
      editing, isNew := None, false;
      FetchProducts(table, listFails);
    }

    /**
     * `handleSave`. `newId` is the id the database gives an inserted row,
     * `fails` whether the insert or update returned an error, and `listFails`
     * whether the `fetchProducts` that follows a successful save did.
     */
    method HandleSave(table: ProductsTable, newId: string, fails: bool, listFails: bool) returns (outcome: SaveOutcome)
      requires Valid()
      modifies this, table
      ensures Valid()
      ensures outcome == NoForm <==> old(editing).None?
      ensures outcome == Rejected <==> old(editing).Some? && !CanSave(old(editing).value.fields)
      ensures outcome == Failed <==> old(editing).Some? && CanSave(old(editing).value.fields) && fails
      ensures outcome != Saved ==>
                table.rows == old(table.rows) && editing == old(editing) && isNew == old(isNew)
                && products == old(products)
      ensures outcome == Saved ==>
                && var payload := BuildPayload(old(editing).value.fields);
                && table.rows == (if old(isNew) then old(table.rows) + [ProductRow(newId, payload)]
                                  else UpdateById(old(table.rows), old(editing).value.id, payload))
                && editing == None && !isNew
                && products == if listFails then [] else table.rows
      ensures benefitInput == old(benefitInput) && faqQ == old(faqQ) && faqA == old(faqA)
      ensures showAdvanced == old(showAdvanced)
    {
      if editing.None? {
        return NoForm;
      }
      var e := editing.value;
      if Blank(e.fields.name) || Blank(e.fields.slug) {
        return Rejected;
      }
      var ok := CompleteSave(table, e.id, BuildPayload(e.fields), newId, fails, listFails);
      return if ok then Saved else Failed;
    }

    /** `handleDelete`: `confirmed` is the answer to the `confirm` dialog. */
    method HandleDelete(table: ProductsTable, id: string, confirmed: bool, fails: bool, listFails: bool)
      requires Valid()
      modifies this, table
      ensures Valid()
      ensures table.rows == if confirmed && !fails then DeleteById(old(table.rows), id) else old(table.rows)
      ensures products == if confirmed && !fails then (if listFails then [] else table.rows) else old(products)
      ensures editing == old(editing) && isNew == old(isNew)
      ensures benefitInput == old(benefitInput) && faqQ == old(faqQ) && faqA == old(faqA)
      ensures showAdvanced == old(showAdvanced)
    {
      if !confirmed {
        return;
      }
      var ok := table.Delete(id, fails);
      if !ok {
        return;
      }
      FetchProducts(table, listFails);
    }

    /** `toggleActive`: the row's `is_active` becomes the negation of the flag the list showed. */
    method ToggleActive(table: ProductsTable, p: ProductRow, fails: bool, listFails: bool)
      requires Valid()
      modifies this, table
      ensures Valid()
      ensures table.rows == if !fails then SetActiveById(old(table.rows), p.id, !p.fields.isActive) else old(table.rows)
      ensures products == if !fails then (if listFails then [] else table.rows) else old(products)
      ensures editing == old(editing) && isNew == old(isNew)
      ensures benefitInput == old(benefitInput) && faqQ == old(faqQ) && faqA == old(faqA)
      ensures showAdvanced == old(showAdvanced)
    {
      var ok := table.SetActive(p.id, !p.fields.isActive, fails);
      if !ok {
        return;
      }
      FetchProducts(table, listFails);
    }

    /** `addBenefit`: nothing happens for blank input or a closed form; otherwise the input is cleared. */
    method AddBenefitInput()
      requires Valid()
      modifies this
      ensures Valid()
      ensures Blank(old(benefitInput)) || old(editing).None? ==>
                editing == old(editing) && benefitInput == old(benefitInput)
      ensures !Blank(old(benefitInput)) && old(editing).Some? ==>
                && editing == Some(old(editing).value.(fields := AddBenefit(old(editing).value.fields, old(benefitInput))))
                && benefitInput == ""
      ensures isNew == old(isNew) && faqQ == old(faqQ) && faqA == old(faqA)
      ensures products == old(products) && showAdvanced == old(showAdvanced)
    {
      if Blank(benefitInput) || editing.None? {
        return;
      }
      var e := editing.value;
      editing := Some(e.(fields := AddBenefit(e.fields, benefitInput)));
      benefitInput := "";
    }

    /** `removeBenefit(i)`. */
    method RemoveBenefit(i: int)
      requires Valid()
      modifies this
      ensures Valid()
      ensures editing == if old(editing).None? then None
                         else Some(old(editing).value.(fields := old(editing).value.fields.(
                                benefits := RemoveAt(old(editing).value.fields.benefits, i))))
      ensures isNew == old(isNew) && benefitInput == old(benefitInput) && faqQ == old(faqQ) && faqA == old(faqA)
      ensures products == old(products) && showAdvanced == old(showAdvanced)
    {
      if editing.None? {
        return;
      }
      var e := editing.value;
      editing := Some(e.(fields := e.fields.(benefits := RemoveAt(e.fields.benefits, i))));
    }

    /** `addFaq`: nothing happens unless both inputs are filled and a form is open; otherwise both are cleared. */
    method AddFaqInput()
      requires Valid()
      modifies this
      ensures Valid()
      ensures Blank(old(faqQ)) || Blank(old(faqA)) || old(editing).None? ==>
                editing == old(editing) && faqQ == old(faqQ) && faqA == old(faqA)
      ensures !Blank(old(faqQ)) && !Blank(old(faqA)) && old(editing).Some? ==>
                && editing == Some(old(editing).value.(fields := AddFaq(old(editing).value.fields, old(faqQ), old(faqA))))
                && faqQ == "" && faqA == ""
      ensures isNew == old(isNew) && benefitInput == old(benefitInput)
      ensures products == old(products) && showAdvanced == old(showAdvanced)
    {
      if Blank(faqQ) || Blank(faqA) || editing.None? {
        return;
      }
      var e := editing.value;
      editing := Some(e.(fields := AddFaq(e.fields, faqQ, faqA)));
      faqQ, faqA := "", "";
    }

    /** `removeFaq(i)`. */
    method RemoveFaq(i: int)
      requires Valid()
      modifies this
      ensures Valid()
      ensures editing == if old(editing).None? then None
                         else Some(old(editing).value.(fields := old(editing).value.fields.(
                                faqs := RemoveAt(old(editing).value.fields.faqs, i))))
      ensures isNew == old(isNew) && benefitInput == old(benefitInput) && faqQ == old(faqQ) && faqA == old(faqA)
      ensures products == old(products) && showAdvanced == old(showAdvanced)
    {
      if editing.None? {
        return;
      }
      var e := editing.value;
      editing := Some(e.(fields := e.fields.(faqs := RemoveAt(e.fields.faqs, i))));
    }

    /** `updateField(field, value)`, for a value of the field's column type. */
    method UpdateField(f: Field, v: Value)
      requires Valid()
      requires Fits(f, v)
      modifies this
      ensures Valid()
      ensures editing == if old(editing).None? then None else Some(SetField(old(editing).value, f, v))
      ensures isNew == old(isNew) && benefitInput == old(benefitInput) && faqQ == old(faqQ) && faqA == old(faqA)
      ensures products == old(products) && showAdvanced == old(showAdvanced)
    {
      if editing.None? {
        return;
      }
      editing := Some(SetField(editing.value, f, v));
    }
  }
}

/**
 * The `purchases` table (row shape in `src/integrations/supabase/types.ts`),
 * shared by the Hotmart webhook and the admin's manual grants. A record holds
 * the columns the application writes; `id` and `created_at` are filled by the
 * database and are not modelled.
 */
module Purchases {
  import opened Wrappers

  datatype PurchaseRecord = PurchaseRecord(
    buyerEmail: string,
    productSlug: string,
    productName: string,
    transactionId: Option<string>,  // `hotmart_transaction_id`, null for manual grants
    status: string)

  /** Number of rows whose transaction id is `tx`. */
  function CountTransaction(rows: seq<PurchaseRecord>, tx: string): nat {
    if rows == [] then 0
    else CountTransaction(rows[..|rows| - 1], tx) + (if rows[|rows| - 1].transactionId == Some(tx) then 1 else 0)
  }

  lemma {:induction false} CountTransactionAppend(rows: seq<PurchaseRecord>, extra: seq<PurchaseRecord>, tx: string)
    ensures CountTransaction(rows + extra, tx) == CountTransaction(rows, tx) + CountTransaction(extra, tx)
    decreases |extra|
  {
    if extra == [] {
      assert rows + extra == rows;
    } else {
      var last := extra[|extra| - 1];
      assert (rows + extra)[..|rows + extra| - 1] == rows + extra[..|extra| - 1];
      CountTransactionAppend(rows, extra[..|extra| - 1], tx);
    }
  }

  /** A row carries `tx` exactly when the count of `tx` is positive. */
  lemma {:induction false} CountTransactionPositive(rows: seq<PurchaseRecord>, tx: string)
    ensures CountTransaction(rows, tx) > 0 <==> exists i :: 0 <= i < |rows| && rows[i].transactionId == Some(tx)
  {
    if rows != [] {
      var init := rows[..|rows| - 1];
      CountTransactionPositive(init, tx);
      if exists i :: 0 <= i < |rows| && rows[i].transactionId == Some(tx) {
        var i :| 0 <= i < |rows| && rows[i].transactionId == Some(tx);
        if i < |rows| - 1 { assert init[i] == rows[i]; }
      }
      if exists i :: 0 <= i < |init| && init[i].transactionId == Some(tx) {
        var i :| 0 <= i < |init| && init[i].transactionId == Some(tx);
        assert rows[i] == init[i];
      }
    }
  }

  class PurchaseStore {
    var rows: seq<PurchaseRecord>

    constructor (initial: seq<PurchaseRecord>)
      ensures rows == initial
    {
      rows := initial;
    }

    /**
     * `select("id").eq("hotmart_transaction_id", tx).limit(1)` followed by the
     * caller's `existing && existing.length > 0`: a query that errors returns no
     * data, which reads as "no match".
     */
    method HasTransaction(tx: string, queryFails: bool) returns (found: bool)
      ensures found <==> !queryFails && CountTransaction(rows, tx) > 0
    {
      if queryFails {
        return false;
      }
      found := false;
      var i := 0;
      while i < |rows|
        invariant 0 <= i <= |rows|
        invariant found <==> CountTransaction(rows[..i], tx) > 0
      {
        assert rows[..i + 1][..i] == rows[..i];
        if rows[i].transactionId == Some(tx) {
          found := true;
        }
        i := i + 1;
      }
      assert rows[..i] == rows;
    }

    /** `insert(record)`: on success the record is appended and nothing else changes. */
    method Insert(record: PurchaseRecord, fails: bool) returns (ok: bool)
      modifies this
      ensures ok == !fails
      ensures rows == if ok then old(rows) + [record] else old(rows)
    {
      ok := !fails;
      if ok {
        rows := rows + [record];
      }
    }
  }
}

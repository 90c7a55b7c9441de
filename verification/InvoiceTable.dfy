/** The invoices of one subscription in the order they were inserted, at most one per period key. */
module InvoiceTable {
  import opened Calendar

  /** The service window runs from `start` to `end`, which is its last second. */
  datatype Invoice = Invoice(key: string, start: DateTime, end: DateTime)

  predicate Billed(rows: seq<Invoice>, key: string) {
    exists i :: 0 <= i < |rows| && rows[i].key == key
  }

  predicate UniqueKeys(rows: seq<Invoice>) {
    forall i, j :: 0 <= i < j < |rows| ==> rows[i].key != rows[j].key
  }

  /** Insert one row; a period that already has an invoice is left alone. */
  function Add(rows: seq<Invoice>, row: Invoice): seq<Invoice> {
    if Billed(rows, row.key) then rows else rows + [row]
  }

  function AddAll(rows: seq<Invoice>, more: seq<Invoice>): seq<Invoice>
    decreases |more|
  {
    if more == [] then rows else AddAll(Add(rows, more[0]), more[1..])
  }

  /** The rows of a list whose period has no invoice yet. */
  function Missing(rows: seq<Invoice>, more: seq<Invoice>): seq<Invoice> {
    if more == [] then []
    else (if Billed(rows, more[0].key) then [] else [more[0]]) + Missing(rows, more[1..])
  }

  lemma BilledAppend(rows: seq<Invoice>, row: Invoice, key: string)
    ensures Billed(rows + [row], key) <==> Billed(rows, key) || row.key == key
  {
    var after := rows + [row];
    assert after[|rows|] == row;
    assert forall i :: 0 <= i < |rows| ==> after[i] == rows[i];
  }

  lemma BilledFirst(rows: seq<Invoice>, key: string)
    requires rows != []
    ensures Billed(rows, key) <==> rows[0].key == key || Billed(rows[1..], key)
  {
    var rest := rows[1..];
    assert forall i :: 0 <= i < |rest| ==> rest[i] == rows[i + 1];
    if Billed(rows, key) && rows[0].key != key {
      var i :| 0 <= i < |rows| && rows[i].key == key;
      assert rest[i - 1].key == key;
    }
  }

  lemma BilledInPrefix(a: seq<Invoice>, b: seq<Invoice>, key: string)
    requires a <= b && Billed(a, key)
    ensures Billed(b, key)
  {
    var i :| 0 <= i < |a| && a[i].key == key;
    assert b[i].key == key;
  }

  /** Adding a list adds exactly its keys, keeps every earlier row where it was, and never repeats a key. */
  lemma {:induction false} AddAllKeys(rows: seq<Invoice>, more: seq<Invoice>, key: string)
    ensures Billed(AddAll(rows, more), key) <==> Billed(rows, key) || Billed(more, key)
    ensures UniqueKeys(rows) ==> UniqueKeys(AddAll(rows, more))
    ensures rows <= AddAll(rows, more)
    decreases |more|
  {
    if more != [] {
      BilledAppend(rows, more[0], key);
      BilledFirst(more, key);
      AddAllKeys(Add(rows, more[0]), more[1..], key);
    }
  }

  lemma {:induction false} MissingUnaffected(rows: seq<Invoice>, extra: Invoice, more: seq<Invoice>)
    requires !Billed(more, extra.key)
    ensures Missing(rows + [extra], more) == Missing(rows, more)
    decreases |more|
  {
    if more != [] {
      BilledFirst(more, extra.key);
      BilledAppend(rows, extra, more[0].key);
      MissingUnaffected(rows, extra, more[1..]);
    }
  }

  lemma UniqueKeysTail(rows: seq<Invoice>)
    requires UniqueKeys(rows) && rows != []
    ensures UniqueKeys(rows[1..]) && !Billed(rows[1..], rows[0].key)
  {
    var rest := rows[1..];
    assert forall i :: 0 <= i < |rest| ==> rest[i] == rows[i + 1];
  }

  /** When the new rows have distinct keys, what is appended is exactly the missing ones, in order. */
  lemma {:induction false} AddAllAppendsTheMissing(rows: seq<Invoice>, more: seq<Invoice>)
    requires UniqueKeys(more)
    ensures AddAll(rows, more) == rows + Missing(rows, more)
    decreases |more|
  {
    if more != [] {
      UniqueKeysTail(more);
      if Billed(rows, more[0].key) {
        AddAllAppendsTheMissing(rows, more[1..]);
      } else {
        AddAllAppendsTheMissing(rows + [more[0]], more[1..]);
        MissingUnaffected(rows, more[0], more[1..]);
      }
    }
  }

  lemma {:induction false} AllMissing(more: seq<Invoice>)
    ensures Missing([], more) == more
  {
    if more != [] {
      AllMissing(more[1..]);
    }
  }

  lemma {:induction false} FullLengthKeepsAll(rows: seq<Invoice>, more: seq<Invoice>)
    ensures |AddAll(rows, more)| <= |rows| + |more|
    ensures |AddAll(rows, more)| == |rows| + |more| ==> AddAll(rows, more) == rows + more
    decreases |more|
  {
    if more != [] {
      var table := Add(rows, more[0]);
      FullLengthKeepsAll(table, more[1..]);
      if Billed(rows, more[0].key) {
        assert |AddAll(table, more[1..])| < |rows| + |more|;
      } else {
        assert table + more[1..] == rows + more;
      }
    }
  }

  /** Into an empty table, every row is inserted exactly when no two share a key. */
  lemma NoneIsShared(more: seq<Invoice>)
    ensures |AddAll([], more)| == |more| <==> UniqueKeys(more)
  {
    if UniqueKeys(more) {
      AddAllAppendsTheMissing([], more);
      AllMissing(more);
    }
    FullLengthKeepsAll([], more);
    assert [] + more == more;
    AddAllKeys([], more, "");
  }

  lemma SharedKeyKeepsFirst(a: Invoice, b: Invoice)
    requires a.key == b.key
    ensures AddAll([], [a, b]) == [a]
  {
    assert [a, b][1..] == [b] && [b][1..] == [];
    assert Add([], a) == [a];
    assert [a][0].key == b.key;
    assert AddAll([a], [b]) == AddAll([a], []);
  }
}

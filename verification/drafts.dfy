/**
 * The draft-invoice store: one storage slot holding a map from table id to
 * that table's draft. Every change reads the whole map, changes one table's
 * entry and writes the whole map back; a missing or unreadable slot reads as
 * an empty map.
 */
module Drafts {
  import opened Wrappers
  import opened Ledger

  /** A saved draft: the invoice (without its id) and the customer's name. */
  datatype Draft = Draft(invoice: Invoice, customerName: string)

  /** The storage slot `cashier_invoice_state`: never written, holding text that does not parse, or a saved map. */
  datatype Blob = Missing | Unreadable | Saved(drafts: map<int, Draft>)

  /** A table id the store acts on: present and not 0 (every other id is falsy in the source). */
  predicate IsTableKey(tableId: Option<int>)
  {
    tableId.Some? && tableId.value != 0
  }

  /** `readInvoiceStorage`: the saved map, or an empty one when the slot is missing or unreadable. */
  function ReadBlob(b: Blob): (m: map<int, Draft>)
    ensures b.Missing? || b.Unreadable? ==> m == map[]
  {
    if b.Saved? then b.drafts else map[]
  }

  /** The "meaningful data" rule: some line, a customer name, or a positive discount or tax rate. */
  predicate HasMeaningfulData(inv: Invoice, customerName: string)
  {
    |inv.items| > 0 || customerName != "" || inv.discountPercent > 0.0 || inv.taxPercent > 0.0
  }

  /**
   * The drafts after `persistInvoiceState`: nothing happens for a falsy
   * table id; a draft with meaningful data is stored (without the invoice
   * id) under its table; an empty draft removes the table's entry. Other
   * tables' entries never change.
   */
  function DraftsAfterPersist(drafts: map<int, Draft>, tableId: Option<int>, inv: Invoice, customerName: string): (r: map<int, Draft>)
    ensures !IsTableKey(tableId) ==> r == drafts
    ensures IsTableKey(tableId) && HasMeaningfulData(inv, customerName) ==>
      tableId.value in r && r[tableId.value] == Draft(inv.(id := None), customerName)
    ensures IsTableKey(tableId) && !HasMeaningfulData(inv, customerName) ==> tableId.value !in r
    ensures forall t :: (tableId.None? || t != tableId.value) ==> (t in r <==> t in drafts) && (t in r ==> r[t] == drafts[t])
  {
    if !IsTableKey(tableId) then drafts
    else if HasMeaningfulData(inv, customerName) then drafts[tableId.value := Draft(inv.(id := None), customerName)]
    else drafts - {tableId.value}
  }

  /** An empty draft leaves no entry for its table, whatever was stored before. */
  lemma EmptyDraftClears(drafts: map<int, Draft>, tableId: int, customerName: string)
    requires tableId != 0 && customerName == ""
    ensures tableId !in DraftsAfterPersist(drafts, Some(tableId), EmptyInvoice(), customerName)
  {
  }

  /** Persisting the same draft twice is persisting it once. */
  lemma PersistIdempotent(drafts: map<int, Draft>, tableId: Option<int>, inv: Invoice, customerName: string)
    ensures var once := DraftsAfterPersist(drafts, tableId, inv, customerName);
      DraftsAfterPersist(once, tableId, inv, customerName) == once
  {
  }

  /** The browser's storage slot for drafts. */
  class DraftStore {
    var blob: Blob
    /** False when the storage refuses writes (a full quota): the write is logged and dropped. */
    var writable: bool

    constructor (blob: Blob, writable: bool)
      ensures this.blob == blob && this.writable == writable
    {
      this.blob := blob;
      this.writable := writable;
    }

    /** The drafts as the next read will see them. */
    function Drafts(): map<int, Draft>
      reads this
    {
      ReadBlob(blob)
    }

    /** `readInvoiceStorage`. */
    method Read() returns (drafts: map<int, Draft>)
      ensures drafts == Drafts()
    {
      drafts := if blob.Saved? then blob.drafts else map[];
    }

    /** `writeInvoiceStorage`: replaces the whole slot, or does nothing when storage refuses the write. */
    method Write(drafts: map<int, Draft>)
      modifies this
      ensures writable == old(writable)
      ensures blob == if writable then Saved(drafts) else old(blob)
    {
      if writable {
        blob := Saved(drafts);
      }
    }

    /** `getStoredInvoiceForTable`: the table's draft, or nothing for a falsy id or a table without one. */
    method Get(tableId: Option<int>) returns (d: Option<Draft>)
      ensures IsTableKey(tableId) && tableId.value in Drafts() ==> d == Some(Drafts()[tableId.value])
      ensures !IsTableKey(tableId) || tableId.value !in Drafts() ==> d.None?
    {
      if !IsTableKey(tableId) {
        return None;
      }
      var all := Read();
      d := if tableId.value in all then Some(all[tableId.value]) else None;
    }

    /** `persistInvoiceForTable`: read, set the table's entry, write everything back. */
    method PersistFor(tableId: Option<int>, payload: Draft)
      modifies this
      ensures writable == old(writable)
      ensures !IsTableKey(tableId) || !writable ==> blob == old(blob)
      ensures IsTableKey(tableId) && writable ==> blob == Saved(old(Drafts())[tableId.value := payload])
    {
      if !IsTableKey(tableId) {
        return;
      }
      var all := Read();
      all := all[tableId.value := payload];
      Write(all);
    }

    /** `clearInvoiceForTable`: read; only when the table has an entry, delete it and write everything back. */
    method ClearFor(tableId: Option<int>)
      modifies this
      ensures writable == old(writable)
      ensures !IsTableKey(tableId) || tableId.value !in old(Drafts()) || !writable ==> blob == old(blob)
      ensures IsTableKey(tableId) && tableId.value in old(Drafts()) && writable ==> blob == Saved(old(Drafts()) - {tableId.value})
      ensures IsTableKey(tableId) ==> Drafts() == if writable then old(Drafts()) - {tableId.value} else old(Drafts())
    {
      if !IsTableKey(tableId) {
        return;
      }
      var all := Read();
      if tableId.value in all {
        all := all - {tableId.value};
        Write(all);
      }
    }
  }
}

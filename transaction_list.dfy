/** The transaction table (frontend/src/components/TransactionList.tsx):
    confirmation-gated delete, inline edit of one row at a time with a
    per-row busy marker, and the CSV export of the rows it was given. */
module TransactionList {
  import opened Common
  import opened Strings
  import Dashboard

  /** `Partial<Transaction>`: the edit draft, each field possibly absent.
      An amount that parsed to NaN is None as well: JSON sends it as null,
      which the server refuses just as it refuses a missing amount. */
  datatype Draft = Draft(
    id: Option<int>,
    amount: Option<real>,
    category: Option<string>,
    description: Option<string>,
    date: Option<string>)

  const EmptyDraft: Draft := Draft(None, None, None, None, None)

  /** The draft seeded from a row: every field present. */
  function DraftOf(t: Transaction): (d: Draft)
    ensures d.id == Some(t.id) && d.amount == Some(t.amount) && d.category == Some(t.category)
    ensures d.description == Some(t.description) && d.date == Some(t.date)
  {
    Draft(Some(t.id), Some(t.amount), Some(t.category), Some(t.description), Some(t.date))
  }

  /** The requests the table issues: `DELETE /transactions/{id}` and
      `PUT /transactions/{id}` with the draft as the JSON body. */
  datatype Request = Delete(id: int) | Put(id: int, body: Draft)

  /** `!editingId`: null and the id 0 both count as "not editing". */
  predicate NotEditing(editingId: Option<int>) {
    editingId.None? || editingId.value == 0
  }

  class Table {
    /** The rows as the dashboard passed them; the table never changes them. */
    const transactions: seq<Transaction>
    /** The dashboard whose `handleTransactionAdded` is this table's
        `onTransactionChange`. */
    const onTransactionChange: Dashboard.Page
    var editingId: Option<int>
    var editForm: Draft
    var loadingId: Option<int>

    constructor (transactions: seq<Transaction>, onTransactionChange: Dashboard.Page)
      ensures this.transactions == transactions && this.onTransactionChange == onTransactionChange
      ensures editingId == None && editForm == EmptyDraft && loadingId == None
    {
      this.transactions := transactions;
      this.onTransactionChange := onTransactionChange;
      editingId := None;
      editForm := EmptyDraft;
      loadingId := None;
    }

    /** `handleDelete` up to its request: declining the confirmation does
        nothing at all; otherwise the row is marked busy and its DELETE is
        issued. */
    method BeginDelete(id: int, confirmed: bool) returns (request: Option<Request>)
      modifies this`loadingId
      ensures !confirmed ==> request == None && loadingId == old(loadingId)
      ensures confirmed ==> request == Some(Delete(id)) && loadingId == Some(id)
    {
      if !confirmed {
        return None;
      }
      loadingId := Some(id);
      request := Some(Delete(id));
    }

    /** `handleDelete` after its request: only an ok response signals the
        dashboard to refresh; the busy marker is cleared in every case. */
    method CompleteDelete(response: Response<()>)
      modifies this`loadingId, onTransactionChange`refreshTrigger
      ensures loadingId == None
      ensures onTransactionChange.refreshTrigger ==
        old(onTransactionChange.refreshTrigger) + (if response.Ok? then 1 else 0)
    {
      if response.Ok? {
        onTransactionChange.HandleTransactionAdded();
      }
      loadingId := None;
    }

    /** The whole `handleDelete` handler. */
    method HandleDelete(id: int, confirmed: bool, response: Response<()>) returns (request: Option<Request>)
      modifies this`loadingId, onTransactionChange`refreshTrigger
      ensures !confirmed ==>
        (request == None && loadingId == old(loadingId)
         && onTransactionChange.refreshTrigger == old(onTransactionChange.refreshTrigger))
      ensures confirmed ==>
        (request == Some(Delete(id)) && loadingId == None
         && onTransactionChange.refreshTrigger ==
            old(onTransactionChange.refreshTrigger) + (if response.Ok? then 1 else 0))
    {
      request := BeginDelete(id, confirmed);
      if request.Some? {
        CompleteDelete(response);
      }
    }

    /** `startEdit`: the row becomes the one being edited, its values the draft. */
    method StartEdit(t: Transaction)
      modifies this`editingId, this`editForm
      ensures editingId == Some(t.id) && editForm == DraftOf(t)
    {
      editingId := Some(t.id);
      editForm := DraftOf(t);
    }

    /** `cancelEdit`: no row is edited and the draft is emptied. */
    method CancelEdit()
      modifies this`editingId, this`editForm
      ensures editingId == None && editForm == EmptyDraft
    {
      editingId := None;
      editForm := EmptyDraft;
    }

    /** The category input's change handler: only the category changes. */
    method EditCategory(text: string)
      modifies this`editForm
      ensures editForm == old(editForm).(category := Some(text))
    {
      editForm := editForm.(category := Some(text));
    }

    /** The description input's change handler: only the description changes. */
    method EditDescription(text: string)
      modifies this`editForm
      ensures editForm == old(editForm).(description := Some(text))
    {
      editForm := editForm.(description := Some(text));
    }

    /** The amount input's change handler: only the amount changes, to
        `parseFloat` of the text. */
    method EditAmount(text: string, parseFloat: string -> Option<real>)
      modifies this`editForm
      ensures editForm == old(editForm).(amount := parseFloat(text))
    {
      editForm := editForm.(amount := parseFloat(text));
    }

    /** `saveEdit` up to its request: nothing happens while `editingId` is
        falsy (null, and also 0); otherwise the edited row is marked busy
        and the whole draft is PUT under the edited id. */
    method BeginSave() returns (request: Option<Request>)
      modifies this`loadingId
      ensures NotEditing(editingId) ==> request == None && loadingId == old(loadingId)
      ensures !NotEditing(editingId) ==>
        request == Some(Put(editingId.value, editForm)) && loadingId == editingId
    {
      if NotEditing(editingId) {
        return None;
      }
      loadingId := editingId;
      request := Some(Put(editingId.value, editForm));
    }

    /** `saveEdit` after its request: an ok response leaves edit mode and
        signals one refresh; a failed response or an error keeps the row in
        edit mode with its draft; the busy marker is cleared in every case. */
    method CompleteSave(response: Response<()>)
      modifies this`editingId, this`loadingId, onTransactionChange`refreshTrigger
      ensures loadingId == None
      ensures response.Ok? ==>
        (editingId == None
         && onTransactionChange.refreshTrigger == old(onTransactionChange.refreshTrigger) + 1)
      ensures !response.Ok? ==>
        (editingId == old(editingId)
         && onTransactionChange.refreshTrigger == old(onTransactionChange.refreshTrigger))
    {
      if response.Ok? {
        editingId := None;
        onTransactionChange.HandleTransactionAdded();
      }
      loadingId := None;
    }

    /** The whole `saveEdit` handler. The draft is never cleared, not even
        on success. */
    method SaveEdit(response: Response<()>) returns (request: Option<Request>)
      modifies this`editingId, this`loadingId, onTransactionChange`refreshTrigger
      ensures NotEditing(old(editingId)) ==>
        (request == None
         && editingId == old(editingId) && loadingId == old(loadingId)
         && onTransactionChange.refreshTrigger == old(onTransactionChange.refreshTrigger))
      ensures !NotEditing(old(editingId)) ==>
        (request == Some(Put(old(editingId).value, editForm))
         && loadingId == None
         && editingId == (if response.Ok? then None else old(editingId))
         && onTransactionChange.refreshTrigger ==
            old(onTransactionChange.refreshTrigger) + (if response.Ok? then 1 else 0))
    {
      request := BeginSave();
      if request.Some? {
        CompleteSave(response);
      }
    }
  }

  const CsvHeader: string := "ID,Date,Category,Description,Amount"

  /** The five cells of a row, unquoted; `show` is JavaScript's
      number-to-string conversion. */
  function CsvFields(t: Transaction, show: real -> string): seq<string>
  {
    [show(t.id as real), t.date, t.category, t.description, show(t.amount)]
  }

  /** `${t.id},${t.date},${t.category},${t.description},${t.amount}` */
  function CsvLine(t: Transaction, show: real -> string): string
  {
    Join(CsvFields(t, show), ',')
  }

  /** One line per row, in the order the rows were given. */
  function CsvRows(ts: seq<Transaction>, show: real -> string): (rows: seq<string>)
    ensures |rows| == |ts|
    ensures forall i :: 0 <= i < |ts| ==> rows[i] == CsvLine(ts[i], show)
  {
    if ts == [] then [] else [CsvLine(ts[0], show)] + CsvRows(ts[1..], show)
  }

  /** The exported text: the header, then the row lines, joined by "\n". */
  function Csv(ts: seq<Transaction>, show: real -> string): string
  {
    Join([CsvHeader] + CsvRows(ts, show), '\n')
  }

  /** No cell of the export contains `c`. */
  predicate CellsAvoid(ts: seq<Transaction>, show: real -> string, c: char) {
    forall i :: 0 <= i < |ts| ==> forall f :: 0 <= f < 5 ==> c !in CsvFields(ts[i], show)[f]
  }

  lemma {:induction false} JoinAvoids(parts: seq<string>, sep: char, c: char)
    requires sep != c
    requires forall k :: 0 <= k < |parts| ==> c !in parts[k]
    ensures c !in Join(parts, sep)
  {
    if |parts| > 1 {
      JoinAvoids(parts[1..], sep, c);
    }
  }

  /** When no cell contains a line break, the export splits back into the
      header followed by exactly one line per row, in list order. */
  lemma CsvLinesRecoverable(ts: seq<Transaction>, show: real -> string)
    requires CellsAvoid(ts, show, '\n')
    ensures Split(Csv(ts, show), '\n') == [CsvHeader] + CsvRows(ts, show)
    ensures |Split(Csv(ts, show), '\n')| == |ts| + 1
  {
    var lines := [CsvHeader] + CsvRows(ts, show);
    forall k | 0 <= k < |lines| ensures '\n' !in lines[k] {
      if k > 0 {
        JoinAvoids(CsvFields(ts[k - 1], show), ',', '\n');
      }
    }
    SplitJoin(lines, '\n');
  }

  /** When no cell contains a comma, each row line splits back into its
      five cells. */
  lemma CsvCellsRecoverable(t: Transaction, show: real -> string)
    requires forall f :: 0 <= f < 5 ==> ',' !in CsvFields(t, show)[f]
    ensures Split(CsvLine(t, show), ',') == CsvFields(t, show)
  {
    SplitJoin(CsvFields(t, show), ',');
  }

  /** Cells are not quoted, so a description with one comma in it splits
      into two columns and pushes the amount into a sixth one. */
  lemma CsvCommaShiftsColumns(t: Transaction, show: real -> string, before: string, after: string)
    requires t.description == before + [','] + after
    requires ',' !in before && ',' !in after
    requires ',' !in show(t.id as real) && ',' !in t.date && ',' !in t.category && ',' !in show(t.amount)
    ensures Split(CsvLine(t, show), ',') ==
      [show(t.id as real), t.date, t.category, before, after, show(t.amount)]
  {
    var cells := CsvFields(t, show);
    var pieces := [cells[0], cells[1], cells[2], before, after, cells[4]];
    assert Join(cells[3..], ',') == Join(pieces[3..], ',') by {
      assert Join(cells[3..], ',') == cells[3] + [','] + Join(cells[4..], ',');
      assert Join(pieces[3..], ',') == before + [','] + Join(pieces[4..], ',');
      assert Join(pieces[4..], ',') == after + [','] + Join(pieces[5..], ',');
    }
    assert Join(cells[2..], ',') == Join(pieces[2..], ',') by {
      assert cells[2..][1..] == cells[3..] && pieces[2..][1..] == pieces[3..];
    }
    assert Join(cells[1..], ',') == Join(pieces[1..], ',') by {
      assert cells[1..][1..] == cells[2..] && pieces[1..][1..] == pieces[2..];
    }
    assert Join(cells, ',') == Join(pieces, ',');
    SplitJoin(pieces, ',');
  }
}

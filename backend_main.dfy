/** The backend endpoints (backend/main.py) over an abstract store: the
    generative model's retry loop with doubling back-off, the category
    prediction that uses it, and the transaction and profile endpoints. The
    database is a class holding the rows and profiles; the model is an
    oracle giving the outcome of each call. */
module BackendMain {
  import opened Common
  import opened Strings

  /** What one call to the model does: return a response with this text,
      raise ResourceExhausted (HTTP 429), or raise anything else. */
  datatype Reply = Content(text: string) | RateLimited | OtherError

  /** What `generate_content_with_retry` does in the end: return a response
      with this text, return None, or raise. */
  datatype RetryOutcome = Returned(text: string) | ReturnedNone | RaisedExhausted | RaisedOther

  function Pow2(k: nat): (p: nat)
    ensures p >= 1
  {
    if k == 0 then 1 else 2 * Pow2(k - 1)
  }

  /** Powers of two multiply by adding exponents. */
  lemma {:induction false} Pow2Add(a: nat, b: nat)
    ensures Pow2(a + b) == Pow2(a) * Pow2(b)
    decreases b
  {
    if b > 0 {
      Pow2Add(a, b - 1);
      assert Pow2(a) * Pow2(b) == 2 * (Pow2(a) * Pow2(b - 1));
    }
  }

  /** The base delay before retry k: `initial_delay`, doubled k times. */
  function Backoff(initialDelay: int, k: nat): int
  {
    if k == 0 then initialDelay else 2 * Backoff(initialDelay, k - 1)
  }

  /** Doubling k times is multiplying by 2^k. */
  lemma {:induction false} BackoffIsPower(initialDelay: int, k: nat)
    ensures Backoff(initialDelay, k) == initialDelay * Pow2(k)
  {
    if k > 0 {
      BackoffIsPower(initialDelay, k - 1);
      assert initialDelay * Pow2(k) == 2 * (initialDelay * Pow2(k - 1));
    }
  }

  /** The sum of the back-off delays. */
  function Sum(xs: seq<int>): int
  {
    if xs == [] then 0 else Sum(xs[..|xs| - 1]) + xs[|xs| - 1]
  }

  /** `generate_content_with_retry(model, prompt, retries, initial_delay)`.
      Call k (from 0) has the outcome `model(k)`; `sleeps` are the delays
      slept between calls, before their random jitter. At most `retries`
      calls are made; every call but the last was rate limited; the last
      call decides: its text is returned, another error is raised at once,
      and a rate limit is raised only on the last permitted attempt. The
      k-th delay is `initial_delay` doubled k times. No attempts at all
      return None. */
  method GenerateContentWithRetry(model: nat -> Reply, retries: int, initialDelay: int)
    returns (outcome: RetryOutcome, calls: nat, sleeps: seq<int>)
    ensures retries <= 0 ==> outcome == ReturnedNone && calls == 0 && sleeps == []
    ensures retries > 0 ==> 1 <= calls <= retries && |sleeps| == calls - 1
    ensures forall k :: 0 <= k < calls - 1 ==> model(k) == RateLimited
    ensures forall k :: 0 <= k < |sleeps| ==> sleeps[k] == Backoff(initialDelay, k)
    ensures retries > 0 && model(calls - 1) == RateLimited ==> calls == retries && outcome == RaisedExhausted
    ensures retries > 0 && model(calls - 1).Content? ==> outcome == Returned(model(calls - 1).text)
    ensures retries > 0 && model(calls - 1) == OtherError ==> outcome == RaisedOther
  {
    var delay := initialDelay;
    var attempt := 0;
    calls := 0;
    sleeps := [];
    while attempt < retries
      invariant attempt == 0 || attempt < retries
      invariant calls == attempt && |sleeps| == attempt
      invariant delay == Backoff(initialDelay, attempt)
      invariant forall k :: 0 <= k < attempt ==> model(k) == RateLimited
      invariant forall k :: 0 <= k < |sleeps| ==> sleeps[k] == Backoff(initialDelay, k)
    {
      calls := calls + 1;
      match model(attempt) {
        case Content(text) =>
          return Returned(text), calls, sleeps;
        case OtherError =>
          return RaisedOther, calls, sleeps;
        case RateLimited =>
          if attempt < retries - 1 {
            sleeps := sleeps + [delay];
            delay := delay * 2;
          } else {
            return RaisedExhausted, calls, sleeps;
          }
      }
      attempt := attempt + 1;
    }
    outcome := ReturnedNone;
  }

  /** The delays of a run add up to `initial_delay * (2^n - 1)` after n of
      them. */
  lemma {:induction false} BackoffTotal(sleeps: seq<int>, initialDelay: int)
    requires forall k :: 0 <= k < |sleeps| ==> sleeps[k] == Backoff(initialDelay, k)
    ensures Sum(sleeps) == Backoff(initialDelay, |sleeps|) - initialDelay
    ensures Sum(sleeps) == initialDelay * (Pow2(|sleeps|) - 1)
    decreases |sleeps|
  {
    if sleeps != [] {
      BackoffTotal(sleeps[..|sleeps| - 1], initialDelay);
    }
    BackoffIsPower(initialDelay, |sleeps|);
  }

  /** With the defaults (3 attempts, 2 seconds) a prediction waits at most
      2 + 4 seconds before jitter. */
  lemma DefaultBackoffBound(sleeps: seq<int>)
    requires |sleeps| <= 3 - 1
    requires forall k :: 0 <= k < |sleeps| ==> sleeps[k] == Backoff(2, k)
    ensures Sum(sleeps) <= 6
  {
    BackoffTotal(sleeps, 2);
    assert Backoff(2, 2) == 8;
  }

  /** Python's `str.isspace` for one character. */
  predicate PyIsSpace(c: char) {
    c == ' ' || ('\t' <= c <= '\r') || ('\U{1C}' <= c <= '\U{1F}') || c == '\U{85}' || c == '\U{A0}'
    || c == '\U{1680}' || ('\U{2000}' <= c <= '\U{200A}') || c == '\U{2028}' || c == '\U{2029}'
    || c == '\U{202F}' || c == '\U{205F}' || c == '\U{3000}'
  }

  /** `str.strip()` */
  function Strip(s: string): string
  {
    TrimBy(s, PyIsSpace)
  }

  const Miscellaneous: string := "Miscellaneous"

  /** `predict_category` given the outcome of its retrying call: a
      response with non-empty text gives that text stripped; no response,
      an empty text or any exception gives "Miscellaneous". */
  function PredictCategory(outcome: RetryOutcome): (category: string)
    ensures !(outcome.Returned? && outcome.text != "") ==> category == Miscellaneous
  {
    match outcome
    case Returned(text) => if text != "" then Strip(text) else Miscellaneous
    case _ => Miscellaneous
  }

  /** A predicted category has no surrounding whitespace, and it is empty
      exactly when the model answered with a non-empty text made only of
      whitespace: `strip()` runs after the emptiness test. */
  lemma PredictCategoryShape(outcome: RetryOutcome)
    ensures var c := PredictCategory(outcome);
      c == [] || (!PyIsSpace(c[0]) && !PyIsSpace(c[|c| - 1]))
    ensures outcome.Returned? && outcome.text != [] ==>
      var c := PredictCategory(outcome); var t := outcome.text;
      var lo := |t| - |TrimStartBy(t, PyIsSpace)|;
      lo + |c| <= |t| && c == t[lo..lo + |c|]
      && (forall i :: 0 <= i < lo ==> PyIsSpace(t[i]))
      && (forall i :: lo + |c| <= i < |t| ==> PyIsSpace(t[i]))
    ensures PredictCategory(outcome) == [] <==>
      (outcome.Returned? && outcome.text != [] && forall i :: 0 <= i < |outcome.text| ==> PyIsSpace(outcome.text[i]))
  {
    if outcome.Returned? && outcome.text != [] {
      var text := outcome.text;
      TrimShape(text, PyIsSpace);
      TrimEmpty(text, PyIsSpace);
      assert PredictCategory(outcome) == Strip(text);
    }
  }

  /** A stored transaction (`models.Transaction`); `date` is the creation
      time, `user_id` is never set by these endpoints. */
  datatype Row = Row(id: int, amount: real, category: string, description: Option<string>,
                     date: int, userId: Option<string>)

  /** The request body of create and update (`schemas.TransactionCreate`). */
  datatype TransactionCreate = TransactionCreate(amount: real, category: string, description: Option<string>)

  /** A stored profile (`models.UserProfile`). */
  datatype Profile = Profile(id: int, userId: Option<string>, initialBalance: real)

  const DefaultInitialBalance: real := 5000.0
  const DefaultLimit: nat := 100

  predicate HasId(rows: seq<Row>, id: int) {
    exists k :: 0 <= k < |rows| && rows[k].id == id
  }

  predicate UniqueIds(rows: seq<Row>) {
    forall j, k :: 0 <= j < k < |rows| ==> rows[j].id != rows[k].id
  }

  /** The largest id in use, 0 for no rows. */
  function MaxId(rows: seq<Row>): (m: int)
    ensures m >= 0
    ensures forall k :: 0 <= k < |rows| ==> rows[k].id <= m
  {
    if rows == [] then 0
    else
      var m := MaxId(rows[..|rows| - 1]);
      if rows[|rows| - 1].id > m then rows[|rows| - 1].id else m
  }

  /** The rows without the one(s) carrying `id`, in their order. */
  function Without(rows: seq<Row>, id: int): seq<Row>
  {
    if rows == [] then []
    else (if rows[0].id == id then [] else [rows[0]]) + Without(rows[1..], id)
  }

  /** `Without` keeps exactly the rows whose id differs. */
  lemma {:induction false} WithoutKeeps(rows: seq<Row>, id: int, r: Row)
    ensures r in Without(rows, id) <==> r in rows && r.id != id
    decreases |rows|
  {
    if rows != [] {
      WithoutKeeps(rows[1..], id, r);
      assert rows == [rows[0]] + rows[1..];
    }
  }

  /** Removing the row at index `i` is removing its id, when ids are unique. */
  lemma {:induction false} RemoveAtIsWithout(rows: seq<Row>, i: nat)
    requires i < |rows| && UniqueIds(rows)
    ensures rows[..i] + rows[i + 1..] == Without(rows, rows[i].id)
    decreases i
  {
    var id := rows[i].id;
    if i == 0 {
      WithoutAbsent(rows[1..], id);
    } else {
      assert rows[1..][i - 1] == rows[i];
      RemoveAtIsWithout(rows[1..], i - 1);
      assert rows[..i] == [rows[0]] + rows[1..][..i - 1];
      assert rows[i + 1..] == rows[1..][i..];
    }
  }

  /** Removing an id nobody carries changes nothing. */
  lemma {:induction false} WithoutAbsent(rows: seq<Row>, id: int)
    requires forall k :: 0 <= k < |rows| ==> rows[k].id != id
    ensures Without(rows, id) == rows
    decreases |rows|
  {
    if rows != [] {
      WithoutAbsent(rows[1..], id);
    }
  }

  /** Removing one row keeps the other ids unique. */
  lemma RemoveAtKeepsUnique(rows: seq<Row>, i: nat)
    requires i < |rows| && UniqueIds(rows)
    ensures UniqueIds(rows[..i] + rows[i + 1..])
  {
    var rest := rows[..i] + rows[i + 1..];
    forall j, k | 0 <= j < k < |rest| ensures rest[j].id != rest[k].id {
      var j' := if j < i then j else j + 1;
      var k' := if k < i then k else k + 1;
      assert rest[j] == rows[j'] && rest[k] == rows[k'];
    }
  }

  /** A delete removes exactly one row when the id is present, and no row
      with that id remains. */
  lemma DeleteRemovesOne(rows: seq<Row>, i: nat)
    requires i < |rows| && UniqueIds(rows)
    ensures |Without(rows, rows[i].id)| == |rows| - 1
    ensures !HasId(Without(rows, rows[i].id), rows[i].id)
  {
    RemoveAtIsWithout(rows, i);
    var rest := Without(rows, rows[i].id);
    forall k | 0 <= k < |rest| ensures rest[k].id != rows[i].id {
      WithoutKeeps(rows, rows[i].id, rest[k]);
    }
  }

  /** The row after update: amount, category and description come from
      the request; id, date and owner are kept. */
  function Overwritten(row: Row, request: TransactionCreate): (r: Row)
    ensures r.id == row.id && r.date == row.date && r.userId == row.userId
    ensures r.amount == request.amount && r.category == request.category
    ensures r.description == request.description
  {
    row.(amount := request.amount, category := request.category, description := request.description)
  }

  /** The keys of `transaction.dict()`, in declaration order. */
  datatype Field = AmountField | CategoryField | DescriptionField

  const RequestFields: seq<Field> := [AmountField, CategoryField, DescriptionField]

  /** `setattr(db_transaction, key, value)` for one key. */
  function SetField(row: Row, field: Field, request: TransactionCreate): (r: Row)
    ensures r.id == row.id && r.date == row.date && r.userId == row.userId
    ensures field == AmountField ==> r.amount == request.amount && r.category == row.category
    ensures field == CategoryField ==> r.category == request.category && r.amount == row.amount
    ensures field == DescriptionField ==> r.description == request.description && r.amount == row.amount
  {
    match field
    case AmountField => row.(amount := request.amount)
    case CategoryField => row.(category := request.category)
    case DescriptionField => row.(description := request.description)
  }

  /** `read_transactions`: up to `limit` rows starting at `skip`, in store
      order. */
  function ReadTransactions(rows: seq<Row>, skip: nat, limit: nat): (page: seq<Row>)
    ensures |page| == (if skip >= |rows| then 0 else if limit < |rows| - skip then limit else |rows| - skip)
    ensures forall k :: 0 <= k < |page| ==> page[k] == rows[skip + k]
  {
    if skip >= |rows| then []
    else if limit < |rows| - skip then rows[skip..skip + limit]
    else rows[skip..]
  }

  /** `GET /transactions/` with no query, as the dashboard sends it: the
      defaults `skip=0, limit=100` apply, so only the first 100 stored rows
      are listed. */
  function ListTransactions(rows: seq<Row>): (r: seq<Row>)
    ensures |r| == (if |rows| < DefaultLimit then |rows| else DefaultLimit)
    ensures r == rows[..|r|]
  {
    ReadTransactions(rows, 0, DefaultLimit)
  }

  /** Reading a page of `a` rows and then the page after it gives the same
      rows as one page of `a + b`. */
  lemma PagesConcatenate(rows: seq<Row>, skip: nat, a: nat, b: nat)
    ensures ReadTransactions(rows, skip, a) + ReadTransactions(rows, skip + a, b) ==
            ReadTransactions(rows, skip, a + b)
  {
    var p := ReadTransactions(rows, skip, a);
    var q := ReadTransactions(rows, skip + a, b);
    var whole := ReadTransactions(rows, skip, a + b);
    assert |p + q| == |whole|;
    forall k | 0 <= k < |whole| ensures (p + q)[k] == whole[k] {
      if k >= |p| {
        assert (p + q)[k] == q[k - |p|];
      }
    }
  }

  class Store {
    var rows: seq<Row>
    var profiles: seq<Profile>

    /** The primary key: no two rows share an id. */
    predicate Valid()
      reads this
    {
      UniqueIds(rows)
    }

    constructor ()
      ensures rows == [] && profiles == [] && Valid()
    {
      rows := [];
      profiles := [];
    }

    /** `db.query(Transaction).filter(Transaction.id == id).first()`: the
        index of the first row with that id. */
    method Find(id: int) returns (index: Option<nat>)
      ensures index.Some? ==> index.value < |rows| && rows[index.value].id == id
      ensures index.None? <==> !HasId(rows, id)
    {
      var k := 0;
      while k < |rows|
        invariant k <= |rows|
        invariant forall m :: 0 <= m < k ==> rows[m].id != id
      {
        if rows[k].id == id {
          return Some(k);
        }
        k := k + 1;
      }
      return None;
    }

    /** `create_transaction`: an empty category is replaced by the
        prediction (`prediction` is what the retrying model call ends in);
        a non-empty one is stored verbatim. The new row gets the next id
        after the largest in use, as SQLite's rowid does, and the time
        `now`. */
    method CreateTransaction(request: TransactionCreate, now: int, prediction: RetryOutcome)
      returns (row: Row)
      requires Valid()
      modifies this`rows
      ensures Valid()
      ensures rows == old(rows) + [row]
      ensures !HasId(old(rows), row.id)
      ensures row.category == (if request.category == "" then PredictCategory(prediction) else request.category)
      ensures row.amount == request.amount && row.description == request.description
      ensures row.date == now && row.userId == None
    {
      var category := request.category;
      if category == "" {
        category := PredictCategory(prediction);
      }
      row := Row(MaxId(rows) + 1, request.amount, category, request.description, now, None);
      rows := rows + [row];
    }

    /** `delete_transaction`: a missing id is a 404 and changes nothing;
        otherwise exactly the row with that id is removed and the others
        keep their order. */
    method DeleteTransaction(id: int) returns (found: bool)
      requires Valid()
      modifies this`rows
      ensures Valid()
      ensures found <==> HasId(old(rows), id)
      ensures !found ==> rows == old(rows)
      ensures found ==> rows == Without(old(rows), id) && |rows| == |old(rows)| - 1
    {
      var index := Find(id);
      if index.None? {
        return false;
      }
      var i := index.value;
      RemoveAtIsWithout(rows, i);
      RemoveAtKeepsUnique(rows, i);
      rows := rows[..i] + rows[i + 1..];
      found := true;
    }

    /** `update_transaction`: a missing id is a 404 and changes nothing;
        otherwise the `setattr` loop overwrites amount, category and
        description of that row (an empty category stays empty: nothing
        is predicted here) and every other row is untouched. */
    method UpdateTransaction(id: int, request: TransactionCreate) returns (updated: Option<Row>)
      requires Valid()
      modifies this`rows
      ensures Valid()
      ensures updated.None? <==> !HasId(old(rows), id)
      ensures updated.None? ==> rows == old(rows)
      ensures |rows| == |old(rows)|
      ensures forall k :: 0 <= k < |rows| ==>
        rows[k] == (if old(rows)[k].id == id then Overwritten(old(rows)[k], request) else old(rows)[k])
      ensures updated.Some? ==> updated.value.id == id && updated.value in rows
    {
      var index := Find(id);
      if index.None? {
        return None;
      }
      var i := index.value;
      var row := rows[i];
      for f := 0 to |RequestFields|
        invariant row.id == rows[i].id && row.date == rows[i].date && row.userId == rows[i].userId
        invariant row.amount == (if f > 0 then request.amount else rows[i].amount)
        invariant row.category == (if f > 1 then request.category else rows[i].category)
        invariant row.description == (if f > 2 then request.description else rows[i].description)
      {
        row := SetField(row, RequestFields[f], request);
      }
      rows := rows[i := row];
      updated := Some(row);
    }

    /** `get_user_profile`: the first profile, created with a balance of
        5000 only when there is none, so a second call creates nothing. */
    method GetUserProfile() returns (profile: Profile)
      modifies this`profiles
      ensures old(profiles) != [] ==> profiles == old(profiles)
      ensures old(profiles) == [] ==> profiles == [Profile(1, None, DefaultInitialBalance)]
      ensures profiles != [] && profile == profiles[0]
    {
      if profiles == [] {
        profiles := [Profile(1, None, DefaultInitialBalance)];
      }
      profile := profiles[0];
    }

    /** `update_user_profile`: an upsert of the first profile's balance;
        the next `GetUserProfile` returns the balance just written. */
    method UpdateUserProfile(initialBalance: real) returns (profile: Profile)
      modifies this`profiles
      ensures old(profiles) == [] ==> profiles == [Profile(1, None, initialBalance)]
      ensures old(profiles) != [] ==>
        profiles == old(profiles)[0 := old(profiles)[0].(initialBalance := initialBalance)]
      ensures profiles != [] && profile == profiles[0] && profile.initialBalance == initialBalance
    {
      if profiles == [] {
        profiles := [Profile(1, None, initialBalance)];
      } else {
        profiles := profiles[0 := profiles[0].(initialBalance := initialBalance)];
      }
      profile := profiles[0];
    }
  }
}

/** The dashboard page (frontend/src/app/dashboard/page.tsx): it owns the
    transaction list, re-fetches it whenever its refresh counter moves,
    and hands the same refresh callback to the form and to the list. */
module Dashboard {
  import opened Common
  import Config

  /** The sequence in the opposite order (what `Array.prototype.reverse`
      leaves behind). */
  function Reversed<T>(s: seq<T>): (r: seq<T>)
    ensures |r| == |s|
    ensures forall k :: 0 <= k < |s| ==> r[k] == s[|s| - 1 - k]
  {
    if s == [] then [] else [s[|s| - 1]] + Reversed(s[..|s| - 1])
  }

  /** Reversal keeps the elements and their multiplicities. */
  lemma {:induction false} ReversedPermutes<T>(s: seq<T>)
    ensures multiset(Reversed(s)) == multiset(s)
  {
    if s != [] {
      ReversedPermutes(s[..|s| - 1]);
      assert s == s[..|s| - 1] + [s[|s| - 1]];
    }
  }

  class Page {
    /** Bumped by the child components; every bump triggers a re-fetch. */
    var refreshTrigger: nat
    /** The list as last fetched, newest first. */
    var transactions: seq<Transaction>
    var isLoading: bool

    constructor ()
      ensures refreshTrigger == 0 && transactions == [] && isLoading
    {
      refreshTrigger := 0;
      transactions := [];
      isLoading := true;
    }

    /** `handleTransactionAdded`, the callback both the form and the list
        receive: the counter moves up by exactly one. */
    method HandleTransactionAdded()
      modifies this`refreshTrigger
      ensures refreshTrigger == old(refreshTrigger) + 1
    {
      refreshTrigger := refreshTrigger + 1;
    }

    /** The effect up to its `await`: loading is shown and the list is
        requested from the inline base URL. */
    method BeginFetch(env: map<string, string>) returns (url: string)
      modifies this`isLoading
      ensures isLoading
      ensures url == Config.InlineApiUrl(env) + "/transactions/"
    {
      isLoading := true;
      url := Config.InlineApiUrl(env) + "/transactions/";
    }

    /** The effect after its `await`: an ok response replaces the list with
        the server's list reversed; a failed response or an error keeps the
        previous list; loading ends in every case. */
    method CompleteFetch(response: Response<seq<Transaction>>)
      modifies this`transactions, this`isLoading
      ensures !isLoading
      ensures response.Ok? ==> transactions == Reversed(response.body)
      ensures !response.Ok? ==> transactions == old(transactions)
    {
      if response.Ok? {
        transactions := Reversed(response.body);
      }
      isLoading := false;
    }

    /** The whole `fetchTransactions` effect, run on mount and after each
        counter change. */
    method FetchTransactions(env: map<string, string>, response: Response<seq<Transaction>>)
      returns (url: string)
      modifies this`transactions, this`isLoading
      ensures url == Config.InlineApiUrl(env) + "/transactions/"
      ensures !isLoading
      ensures response.Ok? ==> transactions == Reversed(response.body)
      ensures !response.Ok? ==> transactions == old(transactions)
      ensures refreshTrigger == old(refreshTrigger)
    {
      url := BeginFetch(env);
      CompleteFetch(response);
    }
  }
}

/** The add-transaction form (frontend/src/components/TransactionForm.tsx):
    three text fields, a loading flag, and a submit handler that POSTs the
    fields and resets them only when the server accepted them. */
module TransactionForm {
  import opened Common
  import Config
  import Dashboard

  /** The POST the form issues: the amount is `parseFloat` of the amount
      text (None standing for NaN, which JSON encodes as null), category and
      description are sent verbatim, possibly empty. */
  datatype CreateRequest = CreateRequest(url: string, amount: Option<real>, category: string, description: string)

  /** What the user is told when the submission failed. */
  datatype Alert = StatusAlert(status: int) | ErrorAlert

  class Form {
    /** The dashboard whose `handleTransactionAdded` is this form's
        `onTransactionAdded`. */
    const onTransactionAdded: Dashboard.Page
    var amount: string
    var category: string
    var description: string
    var loading: bool
    /** The alerts shown so far. */
    var alerts: seq<Alert>

    constructor (onTransactionAdded: Dashboard.Page)
      ensures this.onTransactionAdded == onTransactionAdded
      ensures amount == "" && category == "" && description == "" && !loading && alerts == []
    {
      this.onTransactionAdded := onTransactionAdded;
      amount, category, description := "", "", "";
      loading := false;
      alerts := [];
    }

    method SetAmount(text: string)
      modifies this`amount
      ensures amount == text
    {
      amount := text;
    }

    method SetCategory(text: string)
      modifies this`category
      ensures category == text
    {
      category := text;
    }

    method SetDescription(text: string)
      modifies this`description
      ensures description == text
    {
      description := text;
    }

    /** `handleSubmit` up to its request: loading is shown and the fields
        are sent as they stand; `parseFloat` is given. */
    method BeginSubmit(env: map<string, string>, parseFloat: string -> Option<real>)
      returns (request: CreateRequest)
      modifies this`loading
      ensures loading
      ensures request == CreateRequest(Config.InlineApiUrl(env) + "/transactions/",
                                       parseFloat(amount), category, description)
    {
      loading := true;
      request := CreateRequest(Config.InlineApiUrl(env) + "/transactions/", parseFloat(amount), category, description);
    }

    /** `handleSubmit` after its request: an ok response clears the three
        fields and calls `onTransactionAdded` once; a failed response alerts
        its status and an error alerts too, both keeping the fields and not
        calling back; loading ends in every case. */
    method CompleteSubmit(response: Response<()>)
      modifies this`amount, this`category, this`description, this`loading, this`alerts,
               onTransactionAdded`refreshTrigger
      ensures !loading
      ensures response.Ok? ==>
        (amount == "" && category == "" && description == "" && alerts == old(alerts)
         && onTransactionAdded.refreshTrigger == old(onTransactionAdded.refreshTrigger) + 1)
      ensures !response.Ok? ==>
        (amount == old(amount) && category == old(category) && description == old(description)
         && onTransactionAdded.refreshTrigger == old(onTransactionAdded.refreshTrigger))
      ensures response.NotOk? ==> alerts == old(alerts) + [StatusAlert(response.status)]
      ensures response.Thrown? ==> alerts == old(alerts) + [ErrorAlert]
    {
      match response {
        case Ok(_) =>
          amount, category, description := "", "", "";
          onTransactionAdded.HandleTransactionAdded();
        case NotOk(status) =>
          alerts := alerts + [StatusAlert(status)];
        case Thrown =>
          alerts := alerts + [ErrorAlert];
      }
      loading := false;
    }

    /** The whole `handleSubmit` handler. */
    method HandleSubmit(env: map<string, string>, parseFloat: string -> Option<real>, response: Response<()>)
      returns (request: CreateRequest)
      modifies this`amount, this`category, this`description, this`loading, this`alerts,
               onTransactionAdded`refreshTrigger
      ensures request == CreateRequest(Config.InlineApiUrl(env) + "/transactions/",
                                       parseFloat(old(amount)), old(category), old(description))
      ensures !loading
      ensures response.Ok? ==>
        (amount == "" && category == "" && description == ""
         && onTransactionAdded.refreshTrigger == old(onTransactionAdded.refreshTrigger) + 1)
      ensures !response.Ok? ==>
        (amount == old(amount) && category == old(category) && description == old(description)
         && onTransactionAdded.refreshTrigger == old(onTransactionAdded.refreshTrigger))
      ensures response.Ok? ==> alerts == old(alerts)
      ensures response.NotOk? ==> alerts == old(alerts) + [StatusAlert(response.status)]
      ensures response.Thrown? ==> alerts == old(alerts) + [ErrorAlert]
    {
      request := BeginSubmit(env, parseFloat);
      CompleteSubmit(response);
    }
  }
}

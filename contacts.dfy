/**
 The `POST /contacts` handler of the contacts service.

 A request body is bound to a `Contact`; every phone number must pass the
 Australian phone-number predicate, otherwise the whole record is refused;
 an accepted record is stored with one of two INSERT statements, chosen by
 whether an email was given, and its phone numbers joined with commas into
 one column.  The JSON binder and the database are outside the model: the
 handler receives the binder's verdict as a `Binding` and the outcome of the
 INSERT as the error text it returned, if any.
 */
module Contacts {
  import opened AustralianPhone
  import opened GoStrings

  datatype Option<T> = None | Some(value: T)

  /** The bound request body: `full_name`, `email` ("" when absent), `phone_numbers`. */
  datatype Contact = Contact(fullName: string, email: string, phoneNumbers: seq<string>)

  /** What the JSON binder reports: the bound contact, or the text of its error. */
  datatype Binding = Bound(contact: Contact) | BindFailed(message: string)

  /** The two INSERT statements on table `contacts`, with their bound arguments. */
  datatype Insert =
    | InsertWithEmail(fullName: string, email: string, phoneNumbers: string)
    | InsertWithoutEmail(fullName: string, phoneNumbers: string)

  /** The JSON body of a response: `{"error": …}` or `{"status": …}`. */
  datatype Body = ErrorBody(error: string) | StatusBody(status: string)

  datatype Response = Response(code: int, body: Body)

  const StatusOK: int := 200
  const StatusBadRequest: int := 400
  const StatusInternalServerError: int := 500

  const InvalidPhoneMessage: string := "Invalid Australian phone number"
  const SavedStatus: string := "Contact saved"
  const PhoneSeparator: char := ','

  predicate AllPhonesValid(phones: seq<string>) {
    forall i | 0 <= i < |phones| :: IsValidAustralianPhoneNumber(phones[i])
  }

  /** The statement issued for an accepted contact. */
  function InsertFor(c: Contact): Insert {
    if c.email != "" then InsertWithEmail(c.fullName, c.email, Join(c.phoneNumbers, PhoneSeparator))
    else InsertWithoutEmail(c.fullName, Join(c.phoneNumbers, PhoneSeparator))
  }

  /** What one request does: the INSERT it issues, if any, and the response it sends. */
  datatype Outcome = Outcome(insert: Option<Insert>, response: Response)

  /** The handler's behaviour as a function of the binder's verdict and the database's error. */
  function HandlerOutcome(request: Binding, storageError: Option<string>): Outcome {
    match request
    case BindFailed(message) =>
      Outcome(None, Response(StatusBadRequest, ErrorBody(message)))
    case Bound(c) =>
      if !AllPhonesValid(c.phoneNumbers) then
        Outcome(None, Response(StatusBadRequest, ErrorBody(InvalidPhoneMessage)))
      else
        match storageError
        case Some(e) => Outcome(Some(InsertFor(c)), Response(StatusInternalServerError, ErrorBody(e)))
        case None => Outcome(Some(InsertFor(c)), Response(StatusOK, StatusBody(SavedStatus)))
  }

  /**
   The handler body: bind, check the phone numbers one by one and stop at the
   first invalid one, choose the INSERT, then map the database's error.
   The INSERT's error is kept in a variable of this request.  The handler as
   written assigns it to a variable shared by all requests; `SharedErr` models
   that, and this method is the corrected handler.
   */
  method HandleContacts(request: Binding, storageError: Option<string>) returns (insert: Option<Insert>, response: Response)
    ensures Outcome(insert, response) == HandlerOutcome(request, storageError)
  {
    if request.BindFailed? {
      return None, Response(StatusBadRequest, ErrorBody(request.message));
    }
    var contact := request.contact;

    for i := 0 to |contact.phoneNumbers|
      invariant forall j | 0 <= j < i :: IsValidAustralianPhoneNumber(contact.phoneNumbers[j])
    {
      if !IsValidAustralianPhoneNumber(contact.phoneNumbers[i]) {
        return None, Response(StatusBadRequest, ErrorBody(InvalidPhoneMessage));
      }
    }

    var err: Option<string>;
    if contact.email != "" {
      insert := Some(InsertWithEmail(contact.fullName, contact.email, Join(contact.phoneNumbers, PhoneSeparator)));
      err := storageError;
    } else {
      insert := Some(InsertWithoutEmail(contact.fullName, Join(contact.phoneNumbers, PhoneSeparator)));
      err := storageError;
    }
    if err.Some? {
      return insert, Response(StatusInternalServerError, ErrorBody(err.value));
    }
    response := Response(StatusOK, StatusBody(SavedStatus));
  }

  // ---------------------------------------------------------------------------
  // Properties of the handler.

  /** All or nothing: an INSERT is issued exactly when binding succeeded and every phone number is valid. */
  lemma InsertIffAllPhonesValid(request: Binding, storageError: Option<string>)
    ensures HandlerOutcome(request, storageError).insert.Some? <==>
            request.Bound? && AllPhonesValid(request.contact.phoneNumbers)
  {
  }

  /** One invalid phone number anywhere in the list refuses the whole record with the fixed message. */
  lemma OneInvalidPhoneRefusesRecord(c: Contact, i: int, storageError: Option<string>)
    requires 0 <= i < |c.phoneNumbers| && !IsValidAustralianPhoneNumber(c.phoneNumbers[i])
    ensures HandlerOutcome(Bound(c), storageError) ==
            Outcome(None, Response(StatusBadRequest, ErrorBody(InvalidPhoneMessage)))
  {
  }

  /** The three-column form is chosen exactly when an email is given; both carry the name and the comma-joined numbers. */
  lemma InsertChoice(c: Contact)
    ensures InsertFor(c).InsertWithEmail? <==> c.email != ""
    ensures InsertFor(c).InsertWithoutEmail? <==> c.email == ""
    ensures InsertFor(c).fullName == c.fullName
    ensures InsertFor(c).phoneNumbers == Join(c.phoneNumbers, PhoneSeparator)
    ensures InsertFor(c).InsertWithEmail? ==> InsertFor(c).email == c.email
  {
  }

  /**
   Every response is one of four: 400 with the binder's error, 400 with the
   fixed phone message, 500 with the database's error, or 200 "Contact saved";
   the database's outcome decides only between the last two.
   */
  lemma ResponseMapping(request: Binding, storageError: Option<string>)
    ensures var o := HandlerOutcome(request, storageError);
      && (o.response.code == StatusOK <==> o.insert.Some? && storageError.None?)
      && (o.response.code == StatusInternalServerError <==> o.insert.Some? && storageError.Some?)
      && (o.response.code == StatusBadRequest <==> o.insert.None?)
      && (o.response.code == StatusOK ==> o.response.body == StatusBody(SavedStatus))
      && (o.response.code == StatusInternalServerError ==> o.response.body == ErrorBody(storageError.value))
      && (o.response.code == StatusBadRequest ==>
            o.response.body == (if request.BindFailed? then ErrorBody(request.message) else ErrorBody(InvalidPhoneMessage)))
  {
  }

  // ---------------------------------------------------------------------------
  // Reading a stored row back.  The service never reads its rows; this inverse
  // states what the single comma-joined column preserves.

  /** The contact a row denotes: a NULL email reads as "", the phone column is split on commas. */
  function ReadBack(ins: Insert): Contact {
    match ins
    case InsertWithEmail(name, email, phones) => Contact(name, email, Split(phones, PhoneSeparator))
    case InsertWithoutEmail(name, phones) => Contact(name, "", Split(phones, PhoneSeparator))
  }

  /** A stored contact with at least one valid phone number is recovered exactly from its row. */
  lemma StoredContactRoundTrip(c: Contact)
    requires AllPhonesValid(c.phoneNumbers) && c.phoneNumbers != []
    ensures ReadBack(InsertFor(c)) == c
  {
    forall i | 0 <= i < |c.phoneNumbers| ensures PhoneSeparator !in c.phoneNumbers[i] {
      AcceptedHasNoComma(c.phoneNumbers[i]);
    }
    SplitJoin(c.phoneNumbers, PhoneSeparator);
  }

  /** An empty phone list is stored as "" and reads back as one empty number, not as an empty list. */
  lemma EmptyPhoneListNotRecovered(c: Contact)
    requires c.phoneNumbers == []
    ensures ReadBack(InsertFor(c)).phoneNumbers == [""]
    ensures HandlerOutcome(Bound(c), None).insert == Some(InsertFor(c))
  {
  }

  // ---------------------------------------------------------------------------
  // The service's own scenarios.

  /** Two valid numbers and an email: the three-column INSERT, then 200. */
  lemma ScenarioValidWithEmail()
    ensures HandlerOutcome(Bound(Contact("Alex Bell", "alex@bell-labs.com", ["+61385786688", "+61412345678"])), None)
         == Outcome(Some(InsertWithEmail("Alex Bell", "alex@bell-labs.com", "+61385786688,+61412345678")),
                    Response(StatusOK, StatusBody(SavedStatus)))
  {
    GeographicAccepted('3', "85786688");
    GeographicAccepted('4', "12345678");
    assert Geographic('3', "85786688") == "+61385786688";
    assert Geographic('4', "12345678") == "+61412345678";
    assert AllPhonesValid(["+61385786688", "+61412345678"]);
    var phones := ["+61385786688", "+61412345678"];
    assert phones[1..] == ["+61412345678"];
    assert Join(phones, PhoneSeparator) == "+61385786688" + [','] + "+61412345678";
    assert "+61385786688" + [','] + "+61412345678" == "+61385786688,+61412345678";
  }

  /** A locally formatted number: 400 with the fixed message and no INSERT. */
  lemma ScenarioInvalidNumber()
    ensures HandlerOutcome(Bound(Contact("Alex Bell", "alex@bell-labs.com", ["03 8578 6688"])), None)
         == Outcome(None, Response(StatusBadRequest, ErrorBody(InvalidPhoneMessage)))
  {
    assert "03 8578 6688"[..3][0] == '0';
  }

  /** No email: the two-column INSERT, then 200. */
  lemma ScenarioWithoutEmail()
    ensures HandlerOutcome(Bound(Contact("Fredrik Idestam", "", ["+61398889988"])), None)
         == Outcome(Some(InsertWithoutEmail("Fredrik Idestam", "+61398889988")),
                    Response(StatusOK, StatusBody(SavedStatus)))
  {
    GeographicAccepted('3', "98889988");
  }

  /** A toll-free number is accepted; a database error gives 500 with its text. */
  lemma ScenarioStorageError()
    ensures HandlerOutcome(Bound(Contact("X", "", ["+611800123456"])), Some("connection refused"))
         == Outcome(Some(InsertWithoutEmail("X", "+611800123456")),
                    Response(StatusInternalServerError, ErrorBody("connection refused")))
  {
    TollFreeAccepted("123456");
  }
}

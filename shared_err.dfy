/**
 The handler as written stores the database's error in `err`, the variable
 that `main` declared for `sql.Open` and that the handler closure captures, not
 in a variable of its own.  Every request is served on its own goroutine, so
 all requests in flight share that one variable: between one request's INSERT
 and its `if err != nil`, another request's INSERT can overwrite it.

 `Server` models the captured variable as a field and one request's handling
 after validation as two steps, `Store` (the INSERT and the assignment) and
 `Respond` (the test of `err` and the response).  `RacingRequests` runs two
 requests interleaved at that point.  `Contacts.HandleContacts` is the
 intended handler, whose `err` is local to the request.
 */
module SharedErr {
  import opened AustralianPhone
  import opened GoStrings
  import opened Contacts

  class Server {
    /** `main`'s `err`, shared by every request the closure serves. */
    var err: Option<string>

    /** After a successful `sql.Open`, `err` is nil. */
    constructor ()
      ensures err == None
    {
      err := None;
    }

    /** One request's INSERT: its statement, and the database's error written to the shared `err`. */
    method Store(c: Contact, storageError: Option<string>) returns (insert: Insert)
      modifies this
      ensures insert == InsertFor(c)
      ensures err == storageError
    {
      if c.email != "" {
        insert := InsertWithEmail(c.fullName, c.email, Join(c.phoneNumbers, PhoneSeparator));
      } else {
        insert := InsertWithoutEmail(c.fullName, Join(c.phoneNumbers, PhoneSeparator));
      }
      err := storageError;
    }

    /** The response the request sends, decided by whatever `err` holds now. */
    method Respond() returns (response: Response)
      ensures err.Some? ==> response == Response(StatusInternalServerError, ErrorBody(err.value))
      ensures err.None? ==> response == Response(StatusOK, StatusBody(SavedStatus))
    {
      if err.Some? {
        return Response(StatusInternalServerError, ErrorBody(err.value));
      }
      response := Response(StatusOK, StatusBody(SavedStatus));
    }

    /** Run alone, the two steps give the intended outcome for an accepted contact. */
    method StoreThenRespond(c: Contact, storageError: Option<string>) returns (insert: Insert, response: Response)
      requires AllPhonesValid(c.phoneNumbers)
      modifies this
      ensures Outcome(Some(insert), response) == HandlerOutcome(Bound(c), storageError)
      ensures err == storageError
    {
      insert := Store(c, storageError);
      response := Respond();
    }
  }

  /**
   Two accepted contacts handled at once, interleaved between the first
   request's INSERT and its test of `err`, in both directions.  When the
   second request's INSERT fails, the first request answers 500 with the
   second request's error although its own INSERT succeeded (the intended
   handler answers 200).  When the first request's INSERT fails and the
   second's succeeds, the first request answers 200 "Contact saved" although
   its row was not stored (the intended handler answers 500).
   */
  method RacingRequests() returns (first: Response, intended: Response, masked: Response, maskedIntended: Response)
    ensures first == Response(StatusInternalServerError, ErrorBody("duplicate key value"))
    ensures intended == Response(StatusOK, StatusBody(SavedStatus))
    ensures masked == Response(StatusOK, StatusBody(SavedStatus))
    ensures maskedIntended == Response(StatusInternalServerError, ErrorBody("duplicate key value"))
  {
    var alex := Contact("Alex Bell", "alex@bell-labs.com", ["+61385786688"]);
    var fredrik := Contact("Fredrik Idestam", "", ["+61398889988"]);
    GeographicAccepted('3', "85786688");
    assert Geographic('3', "85786688") == "+61385786688";

    var server := new Server();
    var _ := server.Store(alex, None);
    var _ := server.Store(fredrik, Some("duplicate key value"));
    first := server.Respond();
    var _, response := HandleContacts(Bound(alex), None);
    intended := response;

    var other := new Server();
    var _ := other.Store(alex, Some("duplicate key value"));
    var _ := other.Store(fredrik, None);
    masked := other.Respond();
    var _, failed := HandleContacts(Bound(alex), Some("duplicate key value"));
    maskedIntended := failed;
  }
}

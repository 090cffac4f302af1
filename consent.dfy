/** The consent server action (src/actions/consent.ts) as a transition of the
    user table: find the user by id, set its consent flag, and report the
    outcome; any exception the store raises becomes a failure result. */
module Consent {
  import opened Common
  import opened Users

  /** Where the store may throw: at the lookup, at the update, or nowhere. The
      update is a single-row write, so a throwing update writes nothing. */
  datatype StoreFault = NoFault | LookupThrows(error: string) | UpdateThrows(error: string)

  datatype Outcome = Outcome(db: Tables, result: ActionResult)

  /** The table with the consent flag of `userId` set and nothing else
      changed. */
  function SetConsent(db: Tables, userId: string): (r: Tables)
    requires userId in db.byId
    ensures r.byEmail == db.byEmail
    ensures r.byId.Keys == db.byId.Keys
    ensures r.byId[userId] == db.byId[userId].(iConsent := true)
    ensures forall id :: id in db.byId && id != userId ==> r.byId[id] == db.byId[id]
  {
    db.(byId := db.byId[userId := db.byId[userId].(iConsent := true)])
  }

  /** `consentSubmit(userId)`. */
  function ConsentSubmit(db: Tables, userId: string, fault: StoreFault): (o: Outcome)
    ensures o.result.success <==> userId in db.byId && fault == NoFault
    ensures o.result.success ==> o.db == SetConsent(db, userId)
    ensures !o.result.success ==> o.db == db
  {
    if fault.LookupThrows? then
      Outcome(db, ActionResult(false, "Error updating consent: " + fault.error))
    else if db.FindById(userId).Some? then
      if fault.UpdateThrows? then
        Outcome(db, ActionResult(false, "Error updating consent: " + fault.error))
      else
        Outcome(SetConsent(db, userId), ActionResult(true, "Consent updated for user: " + userId))
    else
      Outcome(db, ActionResult(false, "User not found: " + userId))
  }

  /** The failure messages name the cause: an unknown id, or the store's own
      error. */
  lemma ConsentFailureMessages(db: Tables, userId: string, fault: StoreFault)
    ensures fault.LookupThrows? ==>
      ConsentSubmit(db, userId, fault).result.message == "Error updating consent: " + fault.error
    ensures !fault.LookupThrows? && userId !in db.byId ==>
      ConsentSubmit(db, userId, fault).result.message == "User not found: " + userId
    ensures fault.UpdateThrows? && userId in db.byId ==>
      ConsentSubmit(db, userId, fault).result.message == "Error updating consent: " + fault.error
  {
  }

  /** Consent is only ever granted: after the action every user that had
      consented still has, and the flag of `userId` is set on success. */
  lemma ConsentMonotone(db: Tables, userId: string, fault: StoreFault, id: string)
    requires id in db.byId && db.byId[id].iConsent
    ensures id in ConsentSubmit(db, userId, fault).db.byId
    ensures ConsentSubmit(db, userId, fault).db.byId[id].iConsent
  {
  }

  /** Submitting consent twice leaves the table as submitting it once, and
      the second submission succeeds again. */
  lemma ConsentIdempotent(db: Tables, userId: string)
    ensures var once := ConsentSubmit(db, userId, NoFault);
      var twice := ConsentSubmit(once.db, userId, NoFault);
      twice.db == once.db && twice.result == once.result
  {
    if userId in db.byId {
      var once := SetConsent(db, userId);
      assert once.byId[userId := once.byId[userId].(iConsent := true)] == once.byId;
    }
  }

  /** The action keeps the table consistent: ids, e-mails and the index are
      untouched. */
  lemma ConsentPreservesConsistency(db: Tables, userId: string, fault: StoreFault)
    requires db.Consistent()
    ensures ConsentSubmit(db, userId, fault).db.Consistent()
  {
  }
}

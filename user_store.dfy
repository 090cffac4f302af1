/** The user table as the server actions see it: an object whose two maps
    the actions update in place. Each action is proved to perform exactly the
    transition its specification function describes. */
module UserStore {
  import opened Common
  import opened Users
  import Consent
  import Signup

  class Store {
    var byId: map<string, User>
    var byEmail: map<string, string>

    function Current(): Tables
      reads this
    {
      Tables(byId, byEmail)
    }

    constructor (initial: Tables)
      ensures Current() == initial
    {
      byId := initial.byId;
      byEmail := initial.byEmail;
    }

    /** `consentSubmit(userId)`: look the user up, write the flag, and turn a
        thrown store error into a failure result. */
    method ConsentSubmit(userId: string, fault: Consent.StoreFault) returns (res: ActionResult)
      modifies this
      ensures Consent.Outcome(Current(), res) == Consent.ConsentSubmit(old(Current()), userId, fault)
    {
      if fault.LookupThrows? {
        return ActionResult(false, "Error updating consent: " + fault.error);
      }
      var user := Current().FindById(userId);
      if user.Some? {
        if fault.UpdateThrows? {
          return ActionResult(false, "Error updating consent: " + fault.error);
        }
        byId := byId[userId := user.value.(iConsent := true)];
        res := ActionResult(true, "Consent updated for user: " + userId);
      } else {
        res := ActionResult(false, "User not found: " + userId);
      }
    }

    /** `signupAction(formData)`: required fields, duplicate e-mail, then one
        new row. */
    method SignupAction(form: Signup.FormData, newId: string, saltAndHash: string -> string)
      returns (res: ActionResult)
      requires newId !in byId
      modifies this
      ensures Signup.Outcome(Current(), res) == Signup.SignupAction(old(Current()), form, newId, saltAndHash)
    {
      if !Signup.RequiredPresent(form) {
        return ActionResult(false, Signup.MissingFieldsMessage);
      }
      var emailFound := Current().FindByEmail(form["email"]);
      if emailFound.Some? {
        return ActionResult(false, Signup.DuplicateEmailMessage);
      }
      var user := Signup.NewUser(form, newId, saltAndHash);
      byId := byId[newId := user];
      byEmail := byEmail[user.email := newId];
      res := ActionResult(true, Signup.SuccessMessage);
    }
  }
}

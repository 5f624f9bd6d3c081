/** The password prompt of `src/components/PasswordModal.jsx`.

    The prompt does not own the callbacks it is given (`onSuccess`,
    `onClose`) nor the store `setAuth` writes to; its handlers therefore
    return the calls they make, in order, and the component that renders
    the prompt performs them. */
module PasswordPrompt {
  import opened Auth

  /** One call made by `handleSubmit` or by the cancel button. */
  datatype Effect = OnSuccess | SetAuth(purpose: Purpose) | OnClose

  class PasswordModal {
    /** The `type` the prompt was rendered with. */
    const purpose: Purpose
    var password: string
    var isLoading: bool

    constructor (purpose: Purpose)
      ensures this.purpose == purpose
      ensures password == "" && !isLoading
    {
      this.purpose := purpose;
      password := "";
      isLoading := false;
    }

    /** The input field's `onChange`. */
    method HandleChange(value: string)
      modifies this`password
      ensures password == value
    {
      password := value;
    }

    /** `handleSubmit`: on a match, `onSuccess`, then `setAuth(type)`, then
        `onClose`; on a mismatch nothing is called and the prompt stays open.
        Either way the field is emptied and loading is over. */
    method HandleSubmit() returns (effects: seq<Effect>)
      modifies this`password, this`isLoading
      ensures VerifyPassword(purpose, old(password)) ==> effects == [OnSuccess, SetAuth(purpose), OnClose]
      ensures !VerifyPassword(purpose, old(password)) ==> effects == []
      ensures password == "" && !isLoading
    {
      isLoading := true;
      effects := [];
      if VerifyPassword(purpose, password) {
        effects := effects + [OnSuccess];
        effects := effects + [SetAuth(purpose)];
        effects := effects + [OnClose];
      }
      isLoading := false;
      password := "";
    }

    /** `handleKeyPress`: Enter submits once; any other key does nothing. */
    method HandleKeyPress(key: string) returns (effects: seq<Effect>)
      modifies this`password, this`isLoading
      ensures key == "Enter" && VerifyPassword(purpose, old(password)) ==> effects == [OnSuccess, SetAuth(purpose), OnClose]
      ensures key == "Enter" && !VerifyPassword(purpose, old(password)) ==> effects == []
      ensures key == "Enter" ==> password == "" && !isLoading
      ensures key != "Enter" ==> effects == [] && password == old(password) && isLoading == old(isLoading)
    {
      effects := [];
      if key == "Enter" {
        effects := HandleSubmit();
      }
    }

    /** The cancel button: `onClose` and nothing else; neither the field
        nor the authorization store is touched. */
    method Cancel() returns (effects: seq<Effect>)
      ensures effects == [OnClose]
    {
      effects := [OnClose];
    }
  }
}

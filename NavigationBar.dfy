/** The navigation bar of `src/components/Navigation.jsx`: the sort menu
    and the bucket menu, whose `best` entry is gated behind the `gallery`
    purpose and its password prompt. The `bucket` search parameter lives in
    the address bar (`SearchParams`), shared with the photo list. */
module NavigationBar {
  import opened Wrappers
  import opened Auth
  import opened Query
  import opened PasswordPrompt

  /** What a prompt callback sees: the values of the render that created it. */
  datatype Render = Render(pendingBucket: Option<string>, currentBucket: string)

  /** JavaScript truthiness of `pendingBucket`: not `null` and not empty. */
  predicate Pending(b: Option<string>) {
    b.Some? && b.value != ""
  }

  class Navigation {
    const params: SearchParams
    const auth: Store
    const prompt: PasswordModal

    var sortBy: string
    var isOpen: bool
    var pendingBucket: Option<string>

    /** The prompt this bar renders is the `gallery` one. */
    predicate Valid() {
      prompt.purpose == Gallery
    }

    /** The pending slot holds nothing or `best`: `best` is the only value
        `handleBucketChange` parks there. Every handler keeps this. */
    predicate PendingIsBest()
      reads this
    {
      pendingBucket == None || pendingBucket == Some("best")
    }

    /** `currentBucket` of the current render. */
    function Bucket(): string
      reads params
    {
      CurrentBucket(params.bucket)
    }

    /** The values the handlers of the current render close over. */
    function Snapshot(): Render
      reads this, params
    {
      Render(pendingBucket, Bucket())
    }

    constructor (params: SearchParams, auth: Store)
      ensures this.params == params && this.auth == auth
      ensures Valid() && fresh(prompt)
      ensures sortBy == "time_desc" && !isOpen && pendingBucket == None
      ensures PendingIsBest()
    {
      this.params := params;
      this.auth := auth;
      prompt := new PasswordModal(Gallery);
      sortBy := "time_desc";
      isOpen := false;
      pendingBucket := None;
    }

    /** The mount effect: an address naming `best` without a valid
        `gallery` grant is sent to `photo`; any other bucket is kept, and
        the store is only consulted for `best`. */
    method Mount(now: int)
      modifies params, auth
      ensures old(Bucket()) == "best" ==> auth.items == AfterCheck(old(auth.items), Gallery, now)
      ensures old(Bucket()) != "best" ==> auth.items == old(auth.items)
      ensures old(Bucket()) == "best" && !Authorized(old(auth.items), Gallery, now) ==>
                params.bucket == Some("photo")
      ensures old(Bucket()) != "best" || Authorized(old(auth.items), Gallery, now) ==>
                params.bucket == old(params.bucket)
    {
      if Bucket() == "best" {
        var ok := auth.CheckAuth(Gallery, now);
        if !ok {
          params.bucket := Some("photo");
        }
      }
    }

    /** `handleBucketChange`: any bucket but `best` is selected at once;
        so is `best` with a valid `gallery` grant. Without one the bucket
        stays, `best` waits in `pendingBucket` and the prompt opens. */
    method HandleBucketChange(newBucket: string, now: int)
      modifies params, auth, this`pendingBucket, this`isOpen
      ensures newBucket == "best" ==> auth.items == AfterCheck(old(auth.items), Gallery, now)
      ensures newBucket != "best" ==> auth.items == old(auth.items)
      ensures newBucket == "best" && !Authorized(old(auth.items), Gallery, now) ==>
                params.bucket == old(params.bucket) && pendingBucket == Some("best") && isOpen
      ensures newBucket != "best" || Authorized(old(auth.items), Gallery, now) ==>
                params.bucket == Some(newBucket) &&
                pendingBucket == old(pendingBucket) && isOpen == old(isOpen)
      ensures old(PendingIsBest()) ==> PendingIsBest()
    {
      if newBucket == "best" {
        var ok := auth.CheckAuth(Gallery, now);
        if !ok {
          pendingBucket := Some(newBucket);
          isOpen := true;
          return;
        }
      }
      params.bucket := Some(newBucket);
    }

    /** `handleSortChange`: the selector is stored and broadcast as is. */
    method HandleSortChange(value: string) returns (broadcast: string)
      modifies this`sortBy
      ensures sortBy == value && broadcast == value
    {
      sortBy := value;
      broadcast := value;
    }

    /** `handlePasswordSuccess` with the values of render `r`: a pending
        bucket is selected and the slot cleared; without one nothing changes. */
    method OnPasswordSuccess(r: Render)
      modifies params, this`pendingBucket
      ensures Pending(r.pendingBucket) ==> params.bucket == r.pendingBucket && pendingBucket == None
      ensures !Pending(r.pendingBucket) ==> params.bucket == old(params.bucket) && pendingBucket == old(pendingBucket)
    {
      if Pending(r.pendingBucket) {
        params.bucket := r.pendingBucket;
        pendingBucket := None;
      }
    }

    /** The prompt's `onClose` with the values of render `r`: the prompt
        closes, the slot is cleared, and if `best` was pending the bucket
        is set back to the one current at that render. */
    method OnPromptClose(r: Render)
      modifies params, this`pendingBucket, this`isOpen
      ensures !isOpen && pendingBucket == None
      ensures r.pendingBucket == Some("best") ==> params.bucket == Some(r.currentBucket)
      ensures r.pendingBucket != Some("best") ==> params.bucket == old(params.bucket)
    {
      isOpen := false;
      pendingBucket := None;
      if r.pendingBucket == Some("best") {
        params.bucket := Some(r.currentBucket);
      }
    }

    /** Performs the calls the prompt reported, in its order, all with the
        values of render `r`. Because `onClose` still sees `best` pending,
        it undoes the switch `onSuccess` has just made. */
    method RunPromptEffects(effects: seq<Effect>, r: Render, now: int)
      requires effects == [] || effects == [OnSuccess, SetAuth(Gallery), OnClose]
      modifies params, auth, this`pendingBucket, this`isOpen
      ensures effects == [] ==>
                params.bucket == old(params.bucket) && auth.items == old(auth.items) &&
                pendingBucket == old(pendingBucket) && isOpen == old(isOpen)
      ensures effects != [] ==>
                auth.items == Granted(old(auth.items), Gallery, now) && pendingBucket == None && !isOpen
      ensures effects != [] && r.pendingBucket == Some("best") ==> params.bucket == Some(r.currentBucket)
      ensures effects != [] && !Pending(r.pendingBucket) ==> params.bucket == old(params.bucket)
      ensures effects != [] && Pending(r.pendingBucket) && r.pendingBucket != Some("best") ==>
                params.bucket == r.pendingBucket
    {
      if effects != [] {
        OnPasswordSuccess(r);
        auth.SetAuth(effects[1].purpose, now);
        OnPromptClose(r);
      }
    }

    /** Confirming the `gallery` prompt, as written. With `best` pending
        and the right password the grant is stored, but the bucket ends
        where it was when the prompt opened. */
    method SubmitPassword(now: int)
      requires Valid()
      modifies params, auth, this`pendingBucket, this`isOpen, prompt`password, prompt`isLoading
      ensures prompt.password == "" && !prompt.isLoading
      ensures !VerifyPassword(Gallery, old(prompt.password)) ==>
                params.bucket == old(params.bucket) && auth.items == old(auth.items) &&
                pendingBucket == old(pendingBucket) && isOpen == old(isOpen)
      ensures VerifyPassword(Gallery, old(prompt.password)) ==>
                auth.items == Granted(old(auth.items), Gallery, now) && pendingBucket == None && !isOpen
      ensures VerifyPassword(Gallery, old(prompt.password)) && old(pendingBucket) == Some("best") ==>
                params.bucket == Some(old(Bucket())) && Bucket() == old(Bucket())
      ensures VerifyPassword(Gallery, old(prompt.password)) && old(pendingBucket) == None ==>
                params.bucket == old(params.bucket)
      ensures old(PendingIsBest()) ==> PendingIsBest()
    {
      var r := Snapshot();
      var effects := prompt.HandleSubmit();
      RunPromptEffects(effects, r, now);
    }

    /** Confirming the `gallery` prompt, corrected: `onClose` reads the
        pending slot as `onSuccess` left it, so nothing is undone and a
        pending `best` is selected. */
    method SubmitPasswordFixed(now: int)
      requires Valid()
      modifies params, auth, this`pendingBucket, this`isOpen, prompt`password, prompt`isLoading
      ensures prompt.password == "" && !prompt.isLoading
      ensures !VerifyPassword(Gallery, old(prompt.password)) ==>
                params.bucket == old(params.bucket) && auth.items == old(auth.items) &&
                pendingBucket == old(pendingBucket) && isOpen == old(isOpen)
      ensures VerifyPassword(Gallery, old(prompt.password)) ==>
                auth.items == Granted(old(auth.items), Gallery, now) && pendingBucket == None && !isOpen
      ensures VerifyPassword(Gallery, old(prompt.password)) && old(pendingBucket) == Some("best") ==>
                params.bucket == Some("best") && Bucket() == "best"
      ensures VerifyPassword(Gallery, old(prompt.password)) && old(pendingBucket) == None ==>
                params.bucket == old(params.bucket)
      ensures old(PendingIsBest()) ==> PendingIsBest()
    {
      var effects := prompt.HandleSubmit();
      if effects != [] {
        OnPasswordSuccess(Snapshot());
        auth.SetAuth(effects[1].purpose, now);
        OnPromptClose(Snapshot());
      }
    }

    /** A key pressed in the `gallery` prompt's field: Enter submits, as
        written; other keys change nothing. */
    method PromptKeyPress(key: string, now: int)
      requires Valid()
      modifies params, auth, this`pendingBucket, this`isOpen, prompt`password, prompt`isLoading
      ensures key != "Enter" ==>
                params.bucket == old(params.bucket) && auth.items == old(auth.items) &&
                pendingBucket == old(pendingBucket) && isOpen == old(isOpen) &&
                prompt.password == old(prompt.password) && prompt.isLoading == old(prompt.isLoading)
      ensures key == "Enter" && VerifyPassword(Gallery, old(prompt.password)) ==>
                auth.items == Granted(old(auth.items), Gallery, now) && pendingBucket == None && !isOpen
      ensures key == "Enter" ==> prompt.password == "" && !prompt.isLoading
      ensures key == "Enter" && VerifyPassword(Gallery, old(prompt.password)) && old(pendingBucket) == Some("best") ==>
                params.bucket == Some(old(Bucket())) && Bucket() == old(Bucket())
      ensures key == "Enter" && VerifyPassword(Gallery, old(prompt.password)) && old(pendingBucket) == None ==>
                params.bucket == old(params.bucket)
      ensures key == "Enter" && !VerifyPassword(Gallery, old(prompt.password)) ==>
                params.bucket == old(params.bucket) && auth.items == old(auth.items) &&
                pendingBucket == old(pendingBucket) && isOpen == old(isOpen)
      ensures old(PendingIsBest()) ==> PendingIsBest()
    {
      var r := Snapshot();
      var effects := prompt.HandleKeyPress(key);
      RunPromptEffects(effects, r, now);
    }

    /** Cancelling the `gallery` prompt: `onClose` with the current render's
        values; a pending `best` is abandoned and the bucket set back. */
    method CancelPrompt()
      modifies params, this`pendingBucket, this`isOpen
      ensures !isOpen && pendingBucket == None
      ensures old(pendingBucket) == Some("best") ==> params.bucket == Some(old(Bucket()))
      ensures old(pendingBucket) != Some("best") ==> params.bucket == old(params.bucket)
      ensures Bucket() == old(Bucket())
    {
      var effects := prompt.Cancel();
      OnPromptClose(Snapshot());
    }
  }
}

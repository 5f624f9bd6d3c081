/** The gallery page of `src/components/PhotoList.jsx`: the listing fetch
    and its `best`-bucket gate, the delete flow behind the `delete`
    purpose, the lightbox and the pagination controls.

    Each React `useState` hook is a field; each handler is a method that
    runs to completion. The network enters as parameters: the response the
    listing API would give (`ListResponse`) and whether a delete succeeds;
    the requests a handler sends are its result. */
module PhotoListView {
  import opened Wrappers
  import opened Decimal
  import opened Auth
  import opened Query
  import opened PasswordPrompt

  /** What the listing API answers: `{ photos, totalPages }`, or an error. */
  datatype ListResponse = Listed(photos: seq<Photo>, totalPages: int) | ListFailed

  /** `photos.findIndex(p => p.key === key)`: the first position holding
      the key, or -1. */
  function FindKey(photos: seq<Photo>, key: string): (i: int)
    ensures -1 <= i < |photos|
    ensures i >= 0 ==> photos[i].key == key && forall j :: 0 <= j < i ==> photos[j].key != key
    ensures i == -1 ==> forall j :: 0 <= j < |photos| ==> photos[j].key != key
  {
    if photos == [] then -1
    else if photos[0].key == key then 0
    else
      var r := FindKey(photos[1..], key);
      if r == -1 then -1 else r + 1
  }

  /** `photos[i]`, which is `undefined` outside the array. */
  function At(photos: seq<Photo>, i: int): Option<Photo> {
    if 0 <= i < |photos| then Some(photos[i]) else None
  }

  class PhotoList {
    const params: SearchParams
    const auth: Store
    const prompt: PasswordModal
    /** `API_URL`, the base of every request URL. */
    const api: string

    var photos: seq<Photo>
    var loading: bool
    var page: int
    var inputPage: string
    var totalPages: int
    var selectedPhoto: Option<Photo>
    var selectedPhotoIndex: int
    var sortBy: string
    var showPasswordModal: bool
    var pendingDeletePhoto: Option<Photo>
    var isPreviewOpen: bool

    /** The prompt this page renders is the `delete` one. */
    predicate Valid() {
      prompt.purpose == Delete
    }

    /** The page number lies within the pages the API reported. */
    predicate PageInRange()
      reads this
    {
      1 <= page <= totalPages
    }

    /** The lightbox shows the photo at its index. */
    predicate SelectionMatches()
      reads this
    {
      0 <= selectedPhotoIndex < |photos| && selectedPhoto == Some(photos[selectedPhotoIndex])
    }

    /** The bucket the page reads from the address bar. */
    function Bucket(): string
      reads params
    {
      CurrentBucket(params.bucket)
    }

    /** The first render, with every hook at its initial value. */
    constructor (params: SearchParams, auth: Store, api: string)
      ensures this.params == params && this.auth == auth && this.api == api
      ensures Valid() && fresh(prompt)
      ensures photos == [] && loading && page == 1 && inputPage == "1" && totalPages == 1
      ensures selectedPhoto == None && selectedPhotoIndex == 0 && sortBy == "time_desc"
      ensures !showPasswordModal && pendingDeletePhoto == None && !isPreviewOpen
      ensures PageInRange()
    {
      this.params := params;
      this.auth := auth;
      this.api := api;
      prompt := new PasswordModal(Delete);
      photos := [];
      loading := true;
      page := 1;
      inputPage := "1";
      totalPages := 1;
      selectedPhoto := None;
      selectedPhotoIndex := 0;
      sortBy := "time_desc";
      showPasswordModal := false;
      pendingDeletePhoto := None;
      isPreviewOpen := false;
    }

    /** `fetchPhotos`, run whenever the bucket, the page or the sort
        selector changes. For `best` without a valid `gallery` grant no
        request is sent and the list stays as it was; otherwise one listing
        request for the current bucket, page and selector is sent and a
        successful answer replaces the photos and the page count. Loading
        is over either way. */
    method FetchPhotos(now: int, response: ListResponse) returns (requests: seq<Request>)
      modifies this`photos, this`totalPages, this`loading, auth
      ensures Bucket() == "best" ==> auth.items == AfterCheck(old(auth.items), Gallery, now)
      ensures Bucket() != "best" ==> auth.items == old(auth.items)
      ensures Bucket() == "best" && !Authorized(old(auth.items), Gallery, now) ==>
                requests == [] && photos == old(photos) && totalPages == old(totalPages)
      ensures Bucket() != "best" || Authorized(old(auth.items), Gallery, now) ==>
                requests == [ListRequest(Bucket(), page, sortBy)] &&
                photos == (if response.Listed? then response.photos else old(photos)) &&
                totalPages == (if response.Listed? then response.totalPages else old(totalPages))
      ensures !loading
    {
      loading := true;
      requests := [];
      var gated := false;
      if Bucket() == "best" {
        var ok := auth.CheckAuth(Gallery, now);
        gated := !ok;
      }
      if !gated {
        requests := [ListRequest(Bucket(), page, sortBy)];
        if response.Listed? {
          photos := response.photos;
          totalPages := response.totalPages;
        }
      }
      loading := false;
    }

    /** The `sortChange` listener: the broadcast selector is adopted as is. */
    method HandleSortEvent(detail: string)
      modifies this`sortBy
      ensures sortBy == detail
    {
      sortBy := detail;
    }

    /** `handleDelete`: one delete request for the current bucket and the
        photo's key; if it succeeds, a listing request for the same page
        (not page 1), whose answer replaces the list. A failure anywhere
        leaves the list as it was. */
    method HandleDelete(photo: Photo, deleted: bool, response: ListResponse) returns (requests: seq<Request>)
      modifies this`photos, this`totalPages
      ensures requests == [DeletePhoto(Bucket(), photo.key)] +
                          (if deleted then [ListRequest(Bucket(), page, sortBy)] else [])
      ensures deleted && response.Listed? ==> photos == response.photos && totalPages == response.totalPages
      ensures !(deleted && response.Listed?) ==> photos == old(photos) && totalPages == old(totalPages)
    {
      requests := [DeletePhoto(Bucket(), photo.key)];
      if deleted {
        requests := requests + [ListRequest(Bucket(), page, sortBy)];
        if response.Listed? {
          photos := response.photos;
          totalPages := response.totalPages;
        }
      }
    }

    /** `handleDeleteClick`: without a valid `delete` grant the photo is kept
        as pending, the prompt opens and nothing is sent; with one the
        photo is deleted at once. */
    method HandleDeleteClick(photo: Photo, now: int, deleted: bool, response: ListResponse)
      returns (requests: seq<Request>)
      modifies this`photos, this`totalPages, this`pendingDeletePhoto, this`showPasswordModal, auth
      ensures auth.items == AfterCheck(old(auth.items), Delete, now)
      ensures !Authorized(old(auth.items), Delete, now) ==>
                requests == [] && pendingDeletePhoto == Some(photo) && showPasswordModal &&
                photos == old(photos) && totalPages == old(totalPages)
      ensures Authorized(old(auth.items), Delete, now) ==>
                pendingDeletePhoto == old(pendingDeletePhoto) && showPasswordModal == old(showPasswordModal) &&
                requests == [DeletePhoto(Bucket(), photo.key)] +
                            (if deleted then [ListRequest(Bucket(), page, sortBy)] else []) &&
                photos == (if deleted && response.Listed? then response.photos else old(photos)) &&
                totalPages == (if deleted && response.Listed? then response.totalPages else old(totalPages))
    {
      var ok := auth.CheckAuth(Delete, now);
      if !ok {
        pendingDeletePhoto := Some(photo);
        showPasswordModal := true;
        requests := [];
      } else {
        requests := HandleDelete(photo, deleted, response);
      }
    }

    /** The prompt's `onSuccess`: `handlePasswordSuccess` deletes the pending
        photo captured at render and clears the slot, then the prompt is
        hidden. */
    method OnPromptSuccess(captured: Option<Photo>, deleted: bool, response: ListResponse)
      returns (requests: seq<Request>)
      modifies this`photos, this`totalPages, this`pendingDeletePhoto, this`showPasswordModal
      ensures !showPasswordModal
      ensures captured.None? ==>
                requests == [] && pendingDeletePhoto == old(pendingDeletePhoto) &&
                photos == old(photos) && totalPages == old(totalPages)
      ensures captured.Some? ==>
                pendingDeletePhoto == None &&
                requests == [DeletePhoto(Bucket(), captured.value.key)] +
                            (if deleted then [ListRequest(Bucket(), page, sortBy)] else []) &&
                photos == (if deleted && response.Listed? then response.photos else old(photos)) &&
                totalPages == (if deleted && response.Listed? then response.totalPages else old(totalPages))
    {
      requests := [];
      if captured.Some? {
        requests := HandleDelete(captured.value, deleted, response);
        pendingDeletePhoto := None;
      }
      showPasswordModal := false;
    }

    /** The prompt's `onClose`: hidden, and the pending slot emptied. */
    method OnPromptClose()
      modifies this`pendingDeletePhoto, this`showPasswordModal
      ensures !showPasswordModal && pendingDeletePhoto == None
    {
      showPasswordModal := false;
      pendingDeletePhoto := None;
    }

    /** Confirming the delete prompt. On the right password the callbacks
        run in the prompt's order: `onSuccess` (the pending delete), then
        `setAuth('delete')`, then `onClose`. On a wrong one nothing but the
        prompt's own field changes. */
    method SubmitPassword(now: int, deleted: bool, response: ListResponse) returns (requests: seq<Request>)
      requires Valid()
      modifies this`photos, this`totalPages, this`pendingDeletePhoto, this`showPasswordModal, auth
      modifies prompt`password, prompt`isLoading
      ensures prompt.password == "" && !prompt.isLoading
      ensures !VerifyPassword(Delete, old(prompt.password)) ==>
                requests == [] && auth.items == old(auth.items) &&
                pendingDeletePhoto == old(pendingDeletePhoto) && showPasswordModal == old(showPasswordModal) &&
                photos == old(photos) && totalPages == old(totalPages)
      ensures VerifyPassword(Delete, old(prompt.password)) ==>
                auth.items == Granted(old(auth.items), Delete, now) &&
                !showPasswordModal && pendingDeletePhoto == None &&
                requests == (if old(pendingDeletePhoto).Some? then
                               [DeletePhoto(Bucket(), old(pendingDeletePhoto).value.key)] +
                               (if deleted then [ListRequest(Bucket(), page, sortBy)] else [])
                             else []) &&
                photos == (if old(pendingDeletePhoto).Some? && deleted && response.Listed? then response.photos else old(photos)) &&
                totalPages == (if old(pendingDeletePhoto).Some? && deleted && response.Listed? then response.totalPages else old(totalPages))
    {
      var captured := pendingDeletePhoto;
      var effects := prompt.HandleSubmit();
      requests := RunPromptEffects(effects, captured, now, deleted, response);
    }

    /** A key pressed in the delete prompt's field. */
    method PromptKeyPress(key: string, now: int, deleted: bool, response: ListResponse) returns (requests: seq<Request>)
      requires Valid()
      modifies this`photos, this`totalPages, this`pendingDeletePhoto, this`showPasswordModal, auth
      modifies prompt`password, prompt`isLoading
      ensures key != "Enter" ==>
                requests == [] && auth.items == old(auth.items) && prompt.password == old(prompt.password) &&
                pendingDeletePhoto == old(pendingDeletePhoto) && showPasswordModal == old(showPasswordModal) &&
                photos == old(photos) && totalPages == old(totalPages) && prompt.isLoading == old(prompt.isLoading)
      ensures key == "Enter" ==> prompt.password == "" && !prompt.isLoading
      ensures key == "Enter" && VerifyPassword(Delete, old(prompt.password)) ==>
                auth.items == Granted(old(auth.items), Delete, now) &&
                !showPasswordModal && pendingDeletePhoto == None &&
                requests == (if old(pendingDeletePhoto).Some? then
                               [DeletePhoto(Bucket(), old(pendingDeletePhoto).value.key)] +
                               (if deleted then [ListRequest(Bucket(), page, sortBy)] else [])
                             else []) &&
                photos == (if old(pendingDeletePhoto).Some? && deleted && response.Listed? then response.photos else old(photos)) &&
                totalPages == (if old(pendingDeletePhoto).Some? && deleted && response.Listed? then response.totalPages else old(totalPages))
      ensures key == "Enter" && !VerifyPassword(Delete, old(prompt.password)) ==>
                requests == [] && auth.items == old(auth.items) &&
                pendingDeletePhoto == old(pendingDeletePhoto) && showPasswordModal == old(showPasswordModal) &&
                photos == old(photos) && totalPages == old(totalPages)
    {
      var captured := pendingDeletePhoto;
      var effects := prompt.HandleKeyPress(key);
      requests := RunPromptEffects(effects, captured, now, deleted, response);
    }

    /** Performs the calls the prompt reported, in its order, with the
        pending photo as it was when the prompt was rendered. */
    method RunPromptEffects(effects: seq<Effect>, captured: Option<Photo>, now: int, deleted: bool, response: ListResponse)
      returns (requests: seq<Request>)
      requires effects == [] || effects == [OnSuccess, SetAuth(Delete), OnClose]
      modifies this`photos, this`totalPages, this`pendingDeletePhoto, this`showPasswordModal, auth
      ensures effects == [] ==>
                requests == [] && auth.items == old(auth.items) &&
                pendingDeletePhoto == old(pendingDeletePhoto) && showPasswordModal == old(showPasswordModal) &&
                photos == old(photos) && totalPages == old(totalPages)
      ensures effects != [] ==>
                auth.items == Granted(old(auth.items), Delete, now) &&
                !showPasswordModal && pendingDeletePhoto == None &&
                requests == (if captured.Some? then
                               [DeletePhoto(Bucket(), captured.value.key)] +
                               (if deleted then [ListRequest(Bucket(), page, sortBy)] else [])
                             else []) &&
                photos == (if captured.Some? && deleted && response.Listed? then response.photos else old(photos)) &&
                totalPages == (if captured.Some? && deleted && response.Listed? then response.totalPages else old(totalPages))
    {
      requests := [];
      if effects != [] {
        requests := OnPromptSuccess(captured, deleted, response);
        auth.SetAuth(effects[1].purpose, now);
        OnPromptClose();
      }
    }

    /** Cancelling the delete prompt: only its `onClose` runs. */
    method CancelPrompt()
      modifies this`pendingDeletePhoto, this`showPasswordModal
      ensures !showPasswordModal && pendingDeletePhoto == None
    {
      var effects := prompt.Cancel();
      OnPromptClose();
    }

    /** `handleCopyUrl`: the text written to the clipboard. */
    method HandleCopyUrl(key: string) returns (url: string)
      ensures url == AssetUrl(Bucket(), key)
    {
      url := AssetUrl(Bucket(), key);
    }

    /** `openPreview`: the index is the first position holding the photo's
        key (-1 when none does) and the lightbox opens on the photo. */
    method OpenPreview(photo: Photo)
      modifies this`selectedPhotoIndex, this`selectedPhoto, this`isPreviewOpen
      ensures selectedPhotoIndex == FindKey(photos, photo.key)
      ensures selectedPhoto == Some(photo) && isPreviewOpen
      ensures photo in photos ==> SelectionMatches()
    {
      selectedPhotoIndex := FindKey(photos, photo.key);
      selectedPhoto := Some(photo);
      isPreviewOpen := true;
    }

    /** `handlePrevPhoto`: one step back, never before the first photo. */
    method PrevPhoto()
      modifies this`selectedPhotoIndex, this`selectedPhoto
      ensures old(selectedPhotoIndex) > 0 ==>
                selectedPhotoIndex == old(selectedPhotoIndex) - 1 && selectedPhoto == At(photos, selectedPhotoIndex)
      ensures old(selectedPhotoIndex) <= 0 ==>
                selectedPhotoIndex == old(selectedPhotoIndex) && selectedPhoto == old(selectedPhoto)
      ensures old(SelectionMatches()) ==> SelectionMatches()
    {
      if selectedPhotoIndex > 0 {
        var prevIndex := selectedPhotoIndex - 1;
        selectedPhotoIndex := prevIndex;
        selectedPhoto := At(photos, prevIndex);
      }
    }

    /** `handleNextPhoto`: one step forward, never past the last photo. */
    method NextPhoto()
      modifies this`selectedPhotoIndex, this`selectedPhoto
      ensures old(selectedPhotoIndex) < |photos| - 1 ==>
                selectedPhotoIndex == old(selectedPhotoIndex) + 1 && selectedPhoto == At(photos, selectedPhotoIndex)
      ensures old(selectedPhotoIndex) >= |photos| - 1 ==>
                selectedPhotoIndex == old(selectedPhotoIndex) && selectedPhoto == old(selectedPhoto)
      ensures old(SelectionMatches()) ==> SelectionMatches()
    {
      if selectedPhotoIndex < |photos| - 1 {
        var nextIndex := selectedPhotoIndex + 1;
        selectedPhotoIndex := nextIndex;
        selectedPhoto := At(photos, nextIndex);
      }
    }

    /** `onPreviewClose`: the lightbox closes; the index and photo stay. */
    method ClosePreview()
      modifies this`isPreviewOpen
      ensures !isPreviewOpen
    {
      isPreviewOpen := false;
    }

    /** `handleKeyDown`: while the lightbox is open, ArrowLeft steps back,
        ArrowRight steps forward and Escape closes; every other key, and
        every key while it is closed, changes nothing. */
    method HandleKeyDown(key: string)
      modifies this`selectedPhotoIndex, this`selectedPhoto, this`isPreviewOpen
      ensures !old(isPreviewOpen) || (key != "ArrowLeft" && key != "ArrowRight" && key != "Escape") ==>
                selectedPhotoIndex == old(selectedPhotoIndex) && selectedPhoto == old(selectedPhoto) &&
                isPreviewOpen == old(isPreviewOpen)
      ensures old(isPreviewOpen) && key == "ArrowLeft" ==>
                isPreviewOpen && selectedPhotoIndex == (if old(selectedPhotoIndex) > 0 then old(selectedPhotoIndex) - 1 else old(selectedPhotoIndex)) &&
                selectedPhoto == (if old(selectedPhotoIndex) > 0 then At(photos, selectedPhotoIndex) else old(selectedPhoto))
      ensures old(isPreviewOpen) && key == "ArrowRight" ==>
                isPreviewOpen && selectedPhotoIndex == (if old(selectedPhotoIndex) < |photos| - 1 then old(selectedPhotoIndex) + 1 else old(selectedPhotoIndex)) &&
                selectedPhoto == (if old(selectedPhotoIndex) < |photos| - 1 then At(photos, selectedPhotoIndex) else old(selectedPhoto))
      ensures old(isPreviewOpen) && key == "Escape" ==>
                !isPreviewOpen && selectedPhotoIndex == old(selectedPhotoIndex) && selectedPhoto == old(selectedPhoto)
      ensures old(SelectionMatches()) ==> SelectionMatches()
    {
      if isPreviewOpen {
        if key == "ArrowLeft" {
          PrevPhoto();
        } else if key == "ArrowRight" {
          NextPhoto();
        } else if key == "Escape" {
          ClosePreview();
        }
      }
    }

    /** `handlePageInputChange`: the typed text is kept as it is. */
    method HandlePageInputChange(value: string)
      modifies this`inputPage
      ensures inputPage == value
    {
      inputPage := value;
    }

    /** `setPage(n)` together with the effect on `[page]` that rewrites the
        input text; React skips both when the page does not change. */
    method SetPage(n: int)
      modifies this`page, this`inputPage
      ensures page == n
      ensures n != old(page) ==> inputPage == IntToString(n)
      ensures n == old(page) ==> inputPage == old(inputPage)
    {
      if n != page {
        page := n;
        inputPage := IntToString(n);
      }
    }

    /** `handlePageSubmit`: a typed number in `[1, totalPages]` becomes the
        page; anything else leaves the page and resets the text to it. */
    method HandlePageSubmit()
      modifies this`page, this`inputPage
      ensures var n := ParseInt(old(inputPage));
              n.Some? && 1 <= n.value <= totalPages ==>
                page == n.value && inputPage == (if n.value != old(page) then IntToString(n.value) else old(inputPage))
      ensures var n := ParseInt(old(inputPage));
              !(n.Some? && 1 <= n.value <= totalPages) ==>
                page == old(page) && inputPage == IntToString(page) && ParseInt(inputPage) == Some(page)
      ensures old(PageInRange()) ==> PageInRange()
    {
      var pageNum := ParseInt(inputPage);
      if pageNum.Some? && 1 <= pageNum.value <= totalPages {
        SetPage(pageNum.value);
      } else {
        inputPage := IntToString(page);
        ParseIntOfIntToString(page);
      }
    }

    /** The first-page button, disabled on page 1. */
    method FirstPage()
      modifies this`page, this`inputPage
      ensures page == 1
      ensures old(page) == 1 ==> inputPage == old(inputPage)
      ensures old(page) != 1 ==> inputPage == IntToString(1)
      ensures old(PageInRange()) ==> PageInRange()
    {
      if page != 1 {
        SetPage(1);
      }
    }

    /** The previous-page button, disabled on page 1. */
    method PrevPage()
      modifies this`page, this`inputPage
      ensures old(page) == 1 ==> page == 1 && inputPage == old(inputPage)
      ensures old(page) != 1 ==> page == old(page) - 1 && inputPage == IntToString(page)
      ensures old(PageInRange()) ==> PageInRange()
    {
      if page != 1 {
        SetPage(page - 1);
      }
    }

    /** The next-page button, disabled on the last page. */
    method NextPage()
      modifies this`page, this`inputPage
      ensures old(page) == totalPages ==> page == totalPages && inputPage == old(inputPage)
      ensures old(page) != totalPages ==> page == old(page) + 1 && inputPage == IntToString(page)
      ensures old(PageInRange()) ==> PageInRange()
    {
      if page != totalPages {
        SetPage(page + 1);
      }
    }

    /** The last-page button, disabled on the last page. */
    method LastPage()
      modifies this`page, this`inputPage
      ensures page == totalPages
      ensures old(page) == totalPages ==> inputPage == old(inputPage)
      ensures old(page) != totalPages ==> inputPage == IntToString(totalPages)
      ensures old(PageInRange()) ==> PageInRange()
    {
      if page != totalPages {
        SetPage(totalPages);
      }
    }
  }
}

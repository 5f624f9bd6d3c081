/** The navigation bar and the photo list together, as the page renders
    them: one address bar, one browser store, each component with its own
    password prompt. */
module Session {
  import opened Wrappers
  import opened Auth
  import opened Query
  import opened PhotoListView
  import opened NavigationBar

  /** A sort change in the bar: the bar stores the selector and broadcasts
      it, and the list adopts exactly that selector. */
  method ChangeSort(nav: Navigation, list: PhotoList, value: string)
    modifies nav`sortBy, list`sortBy
    ensures nav.sortBy == value && list.sortBy == value
  {
    var detail := nav.HandleSortChange(value);
    list.HandleSortEvent(detail);
  }

  /** Opening `best` from a fresh browser, as written: a wrong password
      changes nothing; the right one stores the `gallery` grant, yet the
      bucket is still `photo` afterwards and the list's next fetch asks
      for `photo`. */
  method OpenBestAsWritten(api: string)
    returns (afterWrong: string, afterRight: string, granted: bool, requests: seq<Request>)
    ensures afterWrong == "photo" && afterRight == "photo" && granted
    ensures requests == [ListPhotos("photo", 1, "time", Some("desc"))]
  {
    var store := new Store(map[]);
    var params := new SearchParams(None);
    var nav := new Navigation(params, store);
    var list := new PhotoList(params, store, api);
    nav.HandleBucketChange("best", 1000);
    nav.prompt.HandleChange("wrong");
    nav.SubmitPassword(2000);
    afterWrong := nav.Bucket();
    nav.prompt.HandleChange("password");
    nav.SubmitPassword(3000);
    afterRight := nav.Bucket();
    GrantThenCheck(map[], Gallery, 3000, 3000);
    granted := store.CheckAuth(Gallery, 3000);
    MenuSelectors();
    requests := list.FetchPhotos(3000, ListFailed);
  }

  /** The same steps with the corrected prompt callbacks: the right
      password selects `best`, and the list's next fetch is exactly one
      listing request for page 1 of `best`. */
  method OpenBestFixed(api: string) returns (bucket: string, requests: seq<Request>)
    ensures bucket == "best"
    ensures requests == [ListPhotos("best", 1, "time", Some("desc"))]
  {
    var store := new Store(map[]);
    var params := new SearchParams(None);
    var nav := new Navigation(params, store);
    var list := new PhotoList(params, store, api);
    nav.HandleBucketChange("best", 1000);
    nav.prompt.HandleChange("password");
    nav.SubmitPasswordFixed(2000);
    bucket := nav.Bucket();
    GrantThenCheck(map[], Gallery, 2000, 2000);
    MenuSelectors();
    requests := list.FetchPhotos(2000, ListFailed);
  }

  /** A fresh list holding a live `delete` grant, on page 2 of 3 of `photo`:
      page 1 is fetched, Next is pressed, and page 2 is fetched. */
  method SecondPageOfThree(api: string, firstPage: seq<Photo>, listed: seq<Photo>) returns (list: PhotoList)
    ensures fresh(list) && fresh(list.auth) && fresh(list.params)
    ensures Authorized(list.auth.items, Delete, 100)
    ensures list.Bucket() == "photo" && list.page == 2 && list.totalPages == 3
    ensures list.sortBy == "time_desc" && list.photos == listed
  {
    var store := new Store(Granted(map[], Delete, 0));
    var params := new SearchParams(None);
    list := new PhotoList(params, store, api);
    var requests := list.FetchPhotos(0, Listed(firstPage, 3));
    list.NextPage();
    requests := list.FetchPhotos(0, Listed(listed, 3));
    GrantThenCheck(map[], Delete, 0, 100);
  }

  /** Deleting `a.jpg` on page 2 of 3 with a live `delete` grant: one
      delete request, then a listing request for page 2, not page 1; the
      answer replaces the list and the page stays 2. */
  method DeleteOnSecondPage(api: string, firstPage: seq<Photo>, rest: seq<Photo>)
    returns (requests: seq<Request>, page: int, photos: seq<Photo>)
    ensures requests == [DeletePhoto("photo", "a.jpg"), ListPhotos("photo", 2, "time", Some("desc"))]
    ensures page == 2 && photos == rest
  {
    var list := SecondPageOfThree(api, firstPage, [Photo("a.jpg")] + rest);
    requests := list.HandleDeleteClick(Photo("a.jpg"), 100, true, Listed(rest, 3));
    TimeDescRequest("photo", 2);
    page := list.page;
    photos := list.photos;
  }
}

/** The pure pieces shared by the photo list and the navigation bar: the
    bucket taken from the address bar, the decomposition of the sort
    selector, the requests sent to the listing API and the URLs built
    from them. */
module Query {
  import opened Wrappers
  import opened Decimal

  /** A listed photo. Only its `key` is ever read by the front end. */
  datatype Photo = Photo(key: string)

  /** A request to the photo API, before it is written as a URL. */
  datatype Request =
    | ListPhotos(bucket: string, page: int, sortField: string, sortOrder: Option<string>)
    | DeletePhoto(bucket: string, key: string)

  /** `searchParams.get('bucket') || 'photo'`: a missing or empty
      parameter means the `photo` bucket. */
  function CurrentBucket(param: Option<string>): (b: string)
    ensures b != ""
    ensures param.None? ==> b == "photo"
    ensures param.Some? && param.value == "" ==> b == "photo"
    ensures param.Some? && param.value != "" ==> b == param.value
  {
    if param.Some? && param.value != "" then param.value else "photo"
  }

  /** The address bar's search parameters, of which only `bucket` is used.
      `setSearchParams({ bucket: b })` replaces them with `bucket=b`. */
  class SearchParams {
    var bucket: Option<string>

    constructor (initial: Option<string>)
      ensures bucket == initial
    {
      bucket := initial;
    }
  }

  /** `s.split(sep)`: the pieces between separators, empty ones included. */
  function SplitOn(s: string, sep: char): (parts: seq<string>)
    ensures |parts| >= 1
    ensures forall i :: 0 <= i < |parts| ==> sep !in parts[i]
  {
    if s == [] then [""]
    else
      var rest := SplitOn(s[1..], sep);
      if s[0] == sep then [""] + rest
      else [[s[0]] + rest[0]] + rest[1..]
  }

  /** `parts.join(sep)`, the inverse of `SplitOn`. */
  function Join(parts: seq<string>, sep: char): string
    requires |parts| >= 1
  {
    if |parts| == 1 then parts[0] else parts[0] + [sep] + Join(parts[1..], sep)
  }

  lemma {:induction false} JoinSplit(s: string, sep: char)
    ensures Join(SplitOn(s, sep), sep) == s
  {
    if s != [] {
      var rest := SplitOn(s[1..], sep);
      JoinSplit(s[1..], sep);
      var parts := SplitOn(s, sep);
      if s[0] == sep {
        assert parts[1..] == rest;
      } else if |rest| > 1 {
        assert parts[1..] == rest[1..];
      }
    }
  }

  lemma {:induction false} SplitWithoutSeparator(s: string, sep: char)
    requires sep !in s
    ensures SplitOn(s, sep) == [s]
  {
    if s != [] {
      assert s[0] in s;
      SplitWithoutSeparator(s[1..], sep);
      assert [s[0]] + s[1..] == s;
    }
  }

  lemma {:induction false} SplitAtFirstSeparator(f: string, sep: char, rest: string)
    requires sep !in f
    ensures SplitOn(f + [sep] + rest, sep) == [f] + SplitOn(rest, sep)
  {
    var s := f + [sep] + rest;
    if f == [] {
      assert s[1..] == rest;
    } else {
      assert s[0] == f[0] && f[0] in f;
      assert s[1..] == f[1..] + [sep] + rest;
      SplitAtFirstSeparator(f[1..], sep, rest);
      var r := SplitOn(s[1..], sep);
      assert r[0] == f[1..] && r[1..] == SplitOn(rest, sep);
      assert [f[0]] + f[1..] == f;
    }
  }

  lemma {:induction false} JoinStartsWithFirst(parts: seq<string>, sep: char)
    requires |parts| >= 2
    ensures parts[0] + [sep] + parts[1] <= Join(parts, sep)
  {
    if |parts| > 2 {
      assert parts[1..][0] == parts[1];
    }
  }

  /** `const [sortField, sortOrder] = sortBy.split('_')`: the first two
      pieces; the second is `undefined` when there is no `_`. */
  function SortParts(sortBy: string): (string, Option<string>) {
    var parts := SplitOn(sortBy, '_');
    (parts[0], if |parts| >= 2 then Some(parts[1]) else None)
  }

  /** A selector written `field_order` splits back into its two pieces. */
  lemma SortPartsOfSelector(field: string, order: string)
    requires '_' !in field && '_' !in order
    ensures SortParts(field + "_" + order) == (field, Some(order))
  {
    SplitAtFirstSeparator(field, '_', order);
    SplitWithoutSeparator(order, '_');
  }

  /** What the split gives back, in terms of the selector: the field never
      holds a `_`; without an order the field is the whole selector;
      otherwise `field_order` is how the selector starts. No default is
      substituted for an unrecognised selector. */
  lemma SortPartsRecompose(sortBy: string)
    ensures '_' !in SortParts(sortBy).0
    ensures SortParts(sortBy).1.None? ==> SortParts(sortBy).0 == sortBy
    ensures SortParts(sortBy).1.Some? ==>
              '_' !in SortParts(sortBy).1.value &&
              SortParts(sortBy).0 + "_" + SortParts(sortBy).1.value <= sortBy
  {
    var parts := SplitOn(sortBy, '_');
    JoinSplit(sortBy, '_');
    if |parts| >= 2 {
      JoinStartsWithFirst(parts, '_');
    }
  }

  /** The four selector values of the sort menu. */
  lemma MenuSelectors()
    ensures SortParts("time_desc") == ("time", Some("desc"))
    ensures SortParts("time_asc") == ("time", Some("asc"))
    ensures SortParts("name_asc") == ("name", Some("asc"))
    ensures SortParts("name_desc") == ("name", Some("desc"))
  {
    assert "time_desc" == "time" + "_" + "desc" && "time_asc" == "time" + "_" + "asc";
    assert "name_asc" == "name" + "_" + "asc" && "name_desc" == "name" + "_" + "desc";
    SortPartsOfSelector("time", "desc");
    SortPartsOfSelector("time", "asc");
    SortPartsOfSelector("name", "asc");
    SortPartsOfSelector("name", "desc");
  }

  /** The listing request for a bucket, a page and a sort selector. */
  function ListRequest(bucket: string, page: int, sortBy: string): Request {
    var (field, order) := SortParts(sortBy);
    ListPhotos(bucket, page, field, order)
  }

  /** The default selector `time_desc` asks for the newest photos first. */
  lemma TimeDescRequest(bucket: string, page: int)
    ensures ListRequest(bucket, page, "time_desc") == ListPhotos(bucket, page, "time", Some("desc"))
  {
    MenuSelectors();
  }

  /** How a template string writes a value that may be `undefined`. */
  function Show(o: Option<string>): string {
    o.GetOr("undefined")
  }

  /** The URL a request is sent to, below the API's base URL `api`. */
  function Url(api: string, r: Request): string {
    match r
    case ListPhotos(b, p, f, o) =>
      api + "/api/photos?bucket=" + b + "&page=" + IntToString(p) + "&sortBy=" + f + "&order=" + Show(o)
    case DeletePhoto(b, k) =>
      api + "/api/delete/" + b + "/" + k
  }

  /** Where a photo of a bucket is served from (`handleCopyUrl` and the `<Image>` sources). */
  function AssetUrl(bucket: string, key: string): string {
    "https://" + bucket + ".knowivf.ac.cn/" + key
  }

  lemma MiddleCancel(a: string, x: string, y: string, t: string)
    requires a + x + t == a + y + t
    ensures x == y
  {
    assert |x| == |y|;
    assert x == (a + x + t)[|a|..|a| + |x|];
    assert y == (a + y + t)[|a|..|a| + |y|];
  }

  /** Two listing URLs that differ only in the page are different: the
      page number can be read back from the URL. */
  lemma ListUrlDeterminesPage(api: string, b: string, p1: int, p2: int, f: string, o: Option<string>)
    requires Url(api, ListPhotos(b, p1, f, o)) == Url(api, ListPhotos(b, p2, f, o))
    ensures p1 == p2
  {
    var a := api + "/api/photos?bucket=" + b + "&page=";
    var t := "&sortBy=" + f + "&order=" + Show(o);
    assert Url(api, ListPhotos(b, p1, f, o)) == a + IntToString(p1) + t;
    assert Url(api, ListPhotos(b, p2, f, o)) == a + IntToString(p2) + t;
    MiddleCancel(a, IntToString(p1), IntToString(p2), t);
    ParseIntOfIntToString(p1);
    ParseIntOfIntToString(p2);
  }

  /** Copied links of two different photos of one bucket are different. */
  lemma AssetUrlInjective(bucket: string, k1: string, k2: string)
    requires AssetUrl(bucket, k1) == AssetUrl(bucket, k2)
    ensures k1 == k2
  {
    MiddleCancel("https://" + bucket + ".knowivf.ac.cn/", k1, k2, "");
  }
}

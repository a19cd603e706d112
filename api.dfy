/** The backend's rules for community posts and for the annotated-image
    request: which uploads are accepted and where they are stored, which
    fields a post needs, how post ids are handed out, how posts are found and
    listed, and how the image query parameters are read. */
module PostsApi {
  import opened Optional
  import opened Text
  import opened Sorting

  // ---------------------------------------------------------------------------
  // Uploads (`save_image`)

  /** The index of the last `.` in `s`, if there is one. */
  function LastDot(s: string): (r: Option<nat>)
    ensures r.Some? ==> r.value < |s| && s[r.value] == '.' && forall k :: r.value < k < |s| ==> s[k] != '.'
    ensures r.None? ==> forall k :: 0 <= k < |s| ==> s[k] != '.'
  {
    if s == [] then None
    else if s[|s| - 1] == '.' then Some(|s| - 1)
    else LastDot(s[..|s| - 1])
  }

  /** `filename.rsplit(".", 1)[-1]` when the name has a dot, else the empty string. */
  function RawExtension(filename: string): string {
    match LastDot(filename)
    case Some(i) => filename[i + 1..]
    case None => ""
  }

  /** `filename.rsplit(".", 1)[0]`: the name up to its last dot, or all of it. */
  function Stem(filename: string): string {
    match LastDot(filename)
    case Some(i) => filename[..i]
    case None => filename
  }

  /** The extension `save_image` checks: the text after the last dot,
      lowercased, or the empty string when there is no dot. */
  function Extension(filename: string): string {
    Lower(RawExtension(filename))
  }

  /** A name with a dot is its stem, the dot and its raw extension, and the
      extension holds no dot; a name without a dot has no extension. */
  lemma SplitAtLastDot(filename: string)
    ensures '.' in filename ==> filename == Stem(filename) + "." + RawExtension(filename)
    ensures '.' !in RawExtension(filename)
    ensures '.' !in filename ==> Extension(filename) == "" && Stem(filename) == filename
  {
    match LastDot(filename)
    case Some(i) =>
      assert filename == filename[..i] + "." + filename[i + 1..];
    case None =>
  }

  const AllowedImageExtensions: set<string> := {"png", "jpg", "jpeg", "webp", "heic", "heif"}

  /** The uploaded file of a request, by its client-side name. */
  datatype Upload = Upload(filename: string)

  datatype SaveOutcome = NoImage | Unsupported | SavedAt(url: string)

  /** `save_image`: no file or an empty name gives no image; an extension
      outside the allow-list is a 400; otherwise the file is stored as
      `<secure stem>-<token>.<ext>` and its URL is returned. `secure` stands
      for `secure_filename` and `token` for the 8 random hex digits. */
  function SaveImage(upload: Option<Upload>, secure: string -> string, token: string): SaveOutcome {
    if upload.None? || upload.value.filename == "" then NoImage
    else
      var name := upload.value.filename;
      var ext := Extension(name);
      if ext !in AllowedImageExtensions then Unsupported
      else SavedAt("/uploads/" + secure(Stem(name)) + "-" + token + "." + ext)
  }

  /** No file or an empty name is no image; a name whose extension is off the
      list is refused; otherwise the file lands under `/uploads/` and keeps an
      allowed extension. */
  lemma SaveImageSpec(upload: Option<Upload>, secure: string -> string, token: string)
    ensures var r := SaveImage(upload, secure, token);
      && (r.NoImage? <==> upload.None? || upload.value.filename == "")
      && (r.Unsupported? <==> upload.Some? && upload.value.filename != "" && Extension(upload.value.filename) !in AllowedImageExtensions)
      && (r.SavedAt? ==> StartsWith(r.url, "/uploads/") && EndsWith(r.url, "." + Extension(upload.value.filename)))
      && (r.SavedAt? ==> Extension(upload.value.filename) in AllowedImageExtensions)
  {
    if upload.Some? && upload.value.filename != "" {
      var name := upload.value.filename;
      var ext := Extension(name);
      var url := "/uploads/" + secure(Stem(name)) + "-" + token + "." + ext;
      assert url == "/uploads/" + (secure(Stem(name)) + "-" + token) + ("." + ext);
    }
  }

  // ---------------------------------------------------------------------------
  // Posts

  datatype Post = Post(id: int, title: string, description: string, location: string, phone: string,
                       photoUrl: Option<string>, createdAt: Option<string>)

  /** A `POST /posts` request: a multipart form, with the `photo` file when
      the request has one, or a JSON object of string fields. */
  datatype Request =
    | Multipart(form: map<string, string>, photo: Option<Upload>)
    | JsonBody(data: map<string, string>)

  datatype Response = Created(post: Post) | BadRequest(reason: Reason) | Found(found: Post) | NotFound

  /** Why a request was refused with a 400. */
  datatype Reason = UnsupportedImage | MissingFieldNames(names: seq<string>)

  /** The `description` the 400 carries. */
  function Description(reason: Reason): string {
    match reason
    case UnsupportedImage => "Unsupported image type."
    case MissingFieldNames(names) => "Missing fields: " + Join(names, ", ")
  }

  /** `(source.get(key) or "").strip()`. */
  function Param(source: map<string, string>, key: string): string {
    if key in source then PyStrip(source[key]) else ""
  }

  /** `x or None` for a string. */
  function NonEmpty(s: string): (r: Option<string>)
    ensures r.None? <==> s == ""
    ensures r.Some? ==> r.value == s
  {
    if s == "" then None else Some(s)
  }

/** The fields of a request body: the multipart form or the JSON object. */
  function Source(req: Request): map<string, string> {
    if req.Multipart? then req.form else req.data
  }

  /** The photo a request carries: the upload's outcome when the request has a
      `photo` file, otherwise the stripped `photo_url` field, empty meaning none. */
  function PhotoOf(req: Request, secure: string -> string, token: string): SaveOutcome {
    if req.Multipart? && req.photo.Some? then SaveImage(req.photo, secure, token)
    else
      var u := Param(Source(req), "photo_url");
      if u == "" then NoImage else SavedAt(u)
  }

  /** What `create_post` reads from a request: the four text fields, each
      stripped and empty when absent, the photo, and the file written to the
      upload directory (only an accepted `photo` upload is). */
  datatype Form = Form(title: string, description: string, location: string, phone: string,
                       photo: SaveOutcome, saved: seq<string>)

  function ReadForm(req: Request, secure: string -> string, token: string): Form {
    var source := Source(req);
    var photo := PhotoOf(req, secure, token);
    Form(Param(source, "title"), Param(source, "description"), Param(source, "location"), Param(source, "phone"),
         photo, if req.Multipart? && req.photo.Some? && photo.SavedAt? then [photo.url] else [])
  }

  /** The names of the empty fields, in the order title, description,
      location, phone. */
  function MissingFields(title: string, description: string, location: string, phone: string): seq<string> {
    (if title == "" then ["title"] else []) + (if description == "" then ["description"] else [])
    + (if location == "" then ["location"] else []) + (if phone == "" then ["phone"] else [])
  }

  /** The position of a field in the order `create_post` checks them. */
  function FieldRank(name: string): nat {
    if name == "title" then 0 else if name == "description" then 1 else if name == "location" then 2 else 3
  }

  /** A field is named exactly when it is empty, nothing else is named, and
      there is one name per empty field. */
  lemma MissingFieldsSpec(title: string, description: string, location: string, phone: string)
    ensures var missing := MissingFields(title, description, location, phone);
      && ("title" in missing <==> title == "")
      && ("description" in missing <==> description == "")
      && ("location" in missing <==> location == "")
      && ("phone" in missing <==> phone == "")
      && (missing == [] <==> title != "" && description != "" && location != "" && phone != "")
      && (forall f :: f in missing ==> f in ["title", "description", "location", "phone"])
      && |missing| == (if title == "" then 1 else 0) + (if description == "" then 1 else 0)
                      + (if location == "" then 1 else 0) + (if phone == "" then 1 else 0)
  {
  }

  /** The names come in the order title, description, location, phone. */
  lemma MissingFieldsOrdered(title: string, description: string, location: string, phone: string)
    ensures RankOrdered(MissingFields(title, description, location, phone))
  {
    var a: seq<string> := if title == "" then ["title"] else [];
    var b: seq<string> := if description == "" then ["description"] else [];
    var c: seq<string> := if location == "" then ["location"] else [];
    var d: seq<string> := if phone == "" then ["phone"] else [];
    AppendRanked([], a, 0);
    AppendRanked(a, b, 1);
    AppendRanked(a + b, c, 2);
    AppendRanked(a + b + c, d, 3);
  }

  /** Ranks strictly increase along `names`. */
  ghost predicate RankOrdered(names: seq<string>) {
    forall i :: 0 <= i < |names| - 1 ==> FieldRank(names[i]) < FieldRank(names[i + 1])
  }

  /** Putting at most one name of rank `r` after names ranked below `r` keeps
      the ranks increasing. */
  lemma AppendRanked(names: seq<string>, back: seq<string>, r: nat)
    requires |back| <= 1 && (forall f :: f in back ==> FieldRank(f) == r)
    requires RankOrdered(names) && (forall f :: f in names ==> FieldRank(f) < r)
    ensures RankOrdered(names + back)
    ensures forall f :: f in names + back ==> FieldRank(f) <= r
  {
    if names != [] && back != [] {
      assert names[|names| - 1] in names && back[0] in back;
    }
  }

  /** `", ".join(parts)`. */
  function Join(parts: seq<string>, sep: string): string {
    if parts == [] then ""
    else if |parts| == 1 then parts[0]
    else parts[0] + sep + Join(parts[1..], sep)
  }

  /** The empty fields of a form. */
  function Missing(form: Form): seq<string> {
    MissingFields(form.title, form.description, form.location, form.phone)
  }

  /** The post a complete form creates under `id` at time `now`. */
  function NewPost(form: Form, id: int, now: string): Post {
    Post(id, form.title, form.description, form.location, form.phone,
         if form.photo.SavedAt? then Some(form.photo.url) else None, Some(now))
  }

  /** `host_url.rstrip("/")`. */
  function HostPrefix(hostUrl: string): (r: string)
    ensures r == [] || r[|r| - 1] != '/'
  {
    DropTrailing(hostUrl, c => c == '/')
  }

  /** The copy of a post the response carries: a photo URL that starts with
      `/` gets the host in front; the stored post is not changed. */
  function ResponseCopy(post: Post, hostUrl: string): (r: Post)
    ensures r.(photoUrl := post.photoUrl) == post
    ensures post.photoUrl.Some? && post.photoUrl.value != "" && post.photoUrl.value[0] == '/' ==>
      r.photoUrl == Some(HostPrefix(hostUrl) + post.photoUrl.value)
    ensures !(post.photoUrl.Some? && post.photoUrl.value != "" && post.photoUrl.value[0] == '/') ==>
      r == post
  {
    if post.photoUrl.Some? && StartsWith(post.photoUrl.value, "/") && post.photoUrl.value != ""
    then post.(photoUrl := Some(HostPrefix(hostUrl) + post.photoUrl.value))
    else post
  }

  /** The posts store (`posts.json`) and the upload directory. */
  class PostStore {
    var nextId: int
    var posts: seq<Post>
    /** The URLs of the files saved in the upload directory. */
    var uploads: seq<string>

    /** Ids are positive, strictly increasing along the list and below `nextId`,
        so no two posts share one. */
    ghost predicate Valid()
      reads this
    {
      IdsBelow(posts, nextId)
    }

    /** `_init_db`: `{"next_id": 1, "posts": []}`. */
    constructor ()
      ensures Valid() && nextId == 1 && posts == [] && uploads == []
    {
      nextId := 1;
      posts := [];
      uploads := [];
    }

    /** `create_post`: the request is read into a form, then submitted. */
    method CreatePost(req: Request, now: string, hostUrl: string, secure: string -> string, token: string)
      returns (res: Response)
      requires Valid()
      modifies this
      ensures Valid()
      ensures var o := Create(ReadForm(req, secure, token), old(nextId), now, hostUrl);
        && res == o.response
        && uploads == old(uploads) + o.saved
        && posts == old(posts) + o.created
        && nextId == old(nextId) + |o.created|
    {
      var form := ReadForm(req, secure, token);
      res := Submit(form, now, hostUrl);
    }

    /** The steps of `create_post` after reading the request, as `Create`
        describes them: the saved photo is added to the upload directory, a
        created post is appended and takes `nextId`, which then goes up by
        one; a 400 leaves the posts and the counter. */
    method Submit(form: Form, now: string, hostUrl: string) returns (res: Response)
      requires Valid()
      modifies this
      ensures Valid()
      ensures var o := Create(form, old(nextId), now, hostUrl);
        && res == o.response
        && uploads == old(uploads) + o.saved
        && posts == old(posts) + o.created
        && nextId == old(nextId) + |o.created|
    {
      if form.photo.Unsupported? {
        return BadRequest(UnsupportedImage);
      }
      uploads := uploads + form.saved;
      var missing := Missing(form);
      if missing != [] {
        return BadRequest(MissingFieldNames(missing));
      }
      var post := NewPost(form, nextId, now);
      AppendKeepsIds(posts, nextId, post);
      nextId := nextId + 1;
      posts := posts + [post];
      res := Created(ResponseCopy(post, hostUrl));
    }

    /** `get_post`: the first post with the id, or a 404. */
    method GetPost(pid: int) returns (res: Response)
      ensures res == if Lookup(posts, pid).Some? then Found(Lookup(posts, pid).value) else NotFound
      ensures res.Found? ==> res.found in posts && res.found.id == pid
      ensures res.NotFound? <==> forall i :: 0 <= i < |posts| ==> posts[i].id != pid
    {
      for i := 0 to |posts|
        invariant forall j :: 0 <= j < i ==> posts[j].id != pid
        invariant Lookup(posts, pid) == Lookup(posts[i..], pid)
      {
        assert posts[i..][1..] == posts[i + 1..];
        if posts[i].id == pid {
          return Found(posts[i]);
        }
      }
      LookupSpec(posts, pid);
      return NotFound;
    }
  }

  /** What `create_post` does for a request while the counter is `nextId`:
      the files it saves, the posts it appends and its response. */
  datatype Outcome = Outcome(saved: seq<string>, created: seq<Post>, response: Response)

  /** The photo is saved before the fields are checked, so an unsupported
      image fails first and a form missing fields still leaves its file. */
  function Create(form: Form, nextId: int, now: string, hostUrl: string): Outcome {
    if form.photo.Unsupported? then Outcome([], [], BadRequest(UnsupportedImage))
    else if Missing(form) != [] then Outcome(form.saved, [], BadRequest(MissingFieldNames(Missing(form))))
    else
      var post := NewPost(form, nextId, now);
      Outcome(form.saved, [post], Created(ResponseCopy(post, hostUrl)))
  }

  /** A create either is refused with a 400 and stores no post, or stores
      exactly one post: it takes the counter, holds the stripped fields, the
      photo URL and the time, and is what the response shows, up to the host
      in front of its photo URL. */
  lemma CreateCases(form: Form, nextId: int, now: string, hostUrl: string)
    ensures var o := Create(form, nextId, now, hostUrl);
      && (o.response.BadRequest? <==> o.created == [])
      && (o.response.Created? <==> |o.created| == 1)
      && (o.response.Created? ==>
            && o.created[0].id == nextId && o.created[0].createdAt == Some(now)
            && o.created[0].title == form.title && o.created[0].description == form.description
            && o.created[0].location == form.location && o.created[0].phone == form.phone
            && (o.created[0].photoUrl.Some? <==> form.photo.SavedAt?)
            && o.response.post == ResponseCopy(o.created[0], hostUrl))
  {
  }

  /** The 400s: an unsupported image is refused before anything is written;
      otherwise a form with a blank title, description, location or phone is
      refused naming exactly the blank ones, after its photo is saved. */
  lemma CreateRefusals(form: Form, nextId: int, now: string, hostUrl: string)
    ensures var o := Create(form, nextId, now, hostUrl);
      && (o.response == BadRequest(UnsupportedImage) <==> form.photo.Unsupported?)
      && (form.photo.Unsupported? ==> o.saved == [])
      && (!form.photo.Unsupported? ==> o.saved == form.saved)
      && (o.response.BadRequest? && o.response.reason.MissingFieldNames? ==>
            && o.response.reason.names != []
            && ("title" in o.response.reason.names <==> form.title == "")
            && ("description" in o.response.reason.names <==> form.description == "")
            && ("location" in o.response.reason.names <==> form.location == "")
            && ("phone" in o.response.reason.names <==> form.phone == ""))
  {
    MissingFieldsSpec(form.title, form.description, form.location, form.phone);
  }

  /** Only an accepted `photo` upload is written, and it is the URL the post
      records; an empty photo URL is never recorded (it becomes `None`). */
  lemma SavedOnlyUploads(req: Request, secure: string -> string, token: string)
    ensures var form := ReadForm(req, secure, token);
      && |form.saved| <= 1
      && (form.saved != [] ==> req.Multipart? && req.photo.Some? && form.photo == SavedAt(form.saved[0])
                               && Extension(req.photo.value.filename) in AllowedImageExtensions)
      && (form.photo.SavedAt? ==> form.photo.url != "")
  {
    if req.Multipart? && req.photo.Some? {
      SaveImageSpec(req.photo, secure, token);
    }
  }

  /** Ids are positive, strictly increasing along the list and below `nextId`. */
  ghost predicate IdsBelow(posts: seq<Post>, nextId: int) {
    && nextId >= 1
    && (forall i :: 0 <= i < |posts| ==> 1 <= posts[i].id < nextId)
    && (forall i, j :: 0 <= i < j < |posts| ==> posts[i].id < posts[j].id)
  }

  /** Appending a post that takes `nextId` and raising `nextId` keeps the ids
      in order, so the new id is used by no earlier post. */
  lemma AppendKeepsIds(posts: seq<Post>, nextId: int, post: Post)
    requires IdsBelow(posts, nextId) && post.id == nextId
    ensures IdsBelow(posts + [post], nextId + 1)
    ensures forall i :: 0 <= i < |posts| ==> posts[i].id != post.id
  {
  }

  /** The first post with id `pid`. */
  function Lookup(posts: seq<Post>, pid: int): Option<Post> {
    if posts == [] then None
    else if posts[0].id == pid then Some(posts[0])
    else Lookup(posts[1..], pid)
  }

  /** `Lookup` finds a post exactly when one has the id, and what it finds
      has the id and is stored. */
  lemma {:induction false} LookupSpec(posts: seq<Post>, pid: int)
    ensures Lookup(posts, pid).None? <==> forall i :: 0 <= i < |posts| ==> posts[i].id != pid
    ensures Lookup(posts, pid).Some? ==> Lookup(posts, pid).value in posts && Lookup(posts, pid).value.id == pid
  {
    if posts != [] {
      LookupSpec(posts[1..], pid);
      if posts[0].id != pid {
        forall i | 0 <= i < |posts| && (forall k :: 0 <= k < |posts[1..]| ==> posts[1..][k].id != pid)
          ensures posts[i].id != pid
        {
          if i > 0 { assert posts[i] == posts[1..][i - 1]; }
        }
      }
    }
  }

  /** In a valid store, the post appended by a create is the one its id
      finds, and every earlier post is still found by its own id. */
  lemma {:induction false} CreatedPostIsFound(posts: seq<Post>, nextId: int, post: Post, pid: int)
    requires forall i :: 0 <= i < |posts| ==> posts[i].id < nextId
    requires post.id == nextId
    ensures Lookup(posts + [post], nextId) == Some(post)
    ensures pid != nextId ==> Lookup(posts + [post], pid) == Lookup(posts, pid)
  {
    if posts == [] {
    } else {
      assert (posts + [post])[1..] == posts[1..] + [post];
      CreatedPostIsFound(posts[1..], nextId, post, pid);
    }
  }

  // ---------------------------------------------------------------------------
  // `list_posts`

  /** `p.get("created_at", "")`. */
  function CreatedKey(p: Post): string {
    p.createdAt.GetOr("")
  }

  /** `sorted(..., key=created_at, reverse=True)` compares keys the other way round. */
  predicate NewerFirst(a: Post, b: Post) {
    StrLess(CreatedKey(b), CreatedKey(a))
  }

  /** `list_posts`: the stored posts, newest `created_at` first, a missing one
      counting as the empty string; posts with the same key keep their stored
      order. */
  function ListPosts(posts: seq<Post>): (r: seq<Post>)
    ensures multiset(r) == multiset(posts)
    ensures forall i, j :: 0 <= i < j < |r| ==> !StrLess(CreatedKey(r[i]), CreatedKey(r[j]))
    ensures forall y :: TiesOf(r, y, NewerFirst) == TiesOf(posts, y, NewerFirst)
  {
    StrKeyOrder(CreatedKey, false, NewerFirst);
    SortBySorted(posts, NewerFirst);
    var r := SortBy(posts, NewerFirst);
    assert forall y :: TiesOf(r, y, NewerFirst) == TiesOf(posts, y, NewerFirst) by {
      forall y ensures TiesOf(r, y, NewerFirst) == TiesOf(posts, y, NewerFirst) {
        SortByStable(posts, y, NewerFirst);
      }
    }
    r
  }

  // ---------------------------------------------------------------------------
  // `detect_annotated` query parameters

  /** The padding `int` skips around its digits. Non-ASCII white space is
      first turned into a space and ASCII characters are kept as they are;
      then only tab, line feed, vertical tab, form feed, carriage return and
      space are skipped. So the separators U+001C..U+001F, which `str.strip`
      removes, are not padding for `int`. */
  predicate IsIntSpace(c: char) {
    IsPySpace(c) && !(0x1C <= c as int <= 0x1F)
  }

  function IntStrip(s: string): string {
    Strip(s, IsIntSpace)
  }

  /** `int(s)` for a decimal string: surrounding white space, an optional
      sign, then decimal digits (of any script) with single underscores
      between them, at most `MaxStrDigits` of them; anything else raises
      (`None`). */
  function ParseInt(s: string): Option<int> {
    ReadSigned(IntStrip(s))
  }

  /** An optional sign, then the digits. */
  function ReadSigned(t: string): Option<int> {
    if t != [] && t[0] == '-' then
      var n := ReadDigits(t[1..]);
      if n.Some? then Some(-n.value) else None
    else if t != [] && t[0] == '+' then ReadDigits(t[1..])
    else ReadDigits(t)
  }

  /** Decimal digits with single underscores between them, at most
      `MaxStrDigits` of them. */
  function ReadDigits(body: string): Option<int> {
    if !IsDecimal(body) || DigitCount(body) > MaxStrDigits then None
    else Some(DecimalValue(body) as int)
  }

  /** The default limit on the digits `int` converts from a string (and `str`
      writes), `sys.get_int_max_str_digits()`. */
  const MaxStrDigits := 4300

  /** The zero of the Unicode decimal-digit block (general category Nd,
      Unicode 15.0) that holds `c`, if `c` is a digit: there are 68 blocks,
      each running from zero to nine, searched here by code point. */
  function DigitZero(c: char): (z: Option<int>)
    ensures z.Some? ==> z.value <= c as int < z.value + 10
    ensures ('0' <= c <= '9') == (z == Some('0' as int))
  {
    var n := c as int;
    if n < 0xAA50 then
      if n < 0x1040 then
        if n < 0xB66 then
          if n < 0x966 then
            if n < 0x6F0 then
              if n < 0x660 then
                if 0x30 <= n < 0x3A then Some(0x30) else None
              else
                if 0x660 <= n < 0x66A then Some(0x660) else None
            else
              if n < 0x7C0 then
                if 0x6F0 <= n < 0x6FA then Some(0x6F0) else None
              else
                if 0x7C0 <= n < 0x7CA then Some(0x7C0) else None
          else
            if n < 0xA66 then
              if n < 0x9E6 then
                if 0x966 <= n < 0x970 then Some(0x966) else None
              else
                if 0x9E6 <= n < 0x9F0 then Some(0x9E6) else None
            else
              if n < 0xAE6 then
                if 0xA66 <= n < 0xA70 then Some(0xA66) else None
              else
                if 0xAE6 <= n < 0xAF0 then Some(0xAE6) else None
        else
          if n < 0xD66 then
            if n < 0xC66 then
              if n < 0xBE6 then
                if 0xB66 <= n < 0xB70 then Some(0xB66) else None
              else
                if 0xBE6 <= n < 0xBF0 then Some(0xBE6) else None
            else
              if n < 0xCE6 then
                if 0xC66 <= n < 0xC70 then Some(0xC66) else None
              else
                if 0xCE6 <= n < 0xCF0 then Some(0xCE6) else None
          else
            if n < 0xE50 then
              if n < 0xDE6 then
                if 0xD66 <= n < 0xD70 then Some(0xD66) else None
              else
                if 0xDE6 <= n < 0xDF0 then Some(0xDE6) else None
            else
              if n < 0xED0 then
                if 0xE50 <= n < 0xE5A then Some(0xE50) else None
              else
                if n < 0xF20 then
                  if 0xED0 <= n < 0xEDA then Some(0xED0) else None
                else
                  if 0xF20 <= n < 0xF2A then Some(0xF20) else None
      else
        if n < 0x1B50 then
          if n < 0x1946 then
            if n < 0x17E0 then
              if n < 0x1090 then
                if 0x1040 <= n < 0x104A then Some(0x1040) else None
              else
                if 0x1090 <= n < 0x109A then Some(0x1090) else None
            else
              if n < 0x1810 then
                if 0x17E0 <= n < 0x17EA then Some(0x17E0) else None
              else
                if 0x1810 <= n < 0x181A then Some(0x1810) else None
          else
            if n < 0x1A80 then
              if n < 0x19D0 then
                if 0x1946 <= n < 0x1950 then Some(0x1946) else None
              else
                if 0x19D0 <= n < 0x19DA then Some(0x19D0) else None
            else
              if n < 0x1A90 then
                if 0x1A80 <= n < 0x1A8A then Some(0x1A80) else None
              else
                if 0x1A90 <= n < 0x1A9A then Some(0x1A90) else None
        else
          if n < 0xA620 then
            if n < 0x1C40 then
              if n < 0x1BB0 then
                if 0x1B50 <= n < 0x1B5A then Some(0x1B50) else None
              else
                if 0x1BB0 <= n < 0x1BBA then Some(0x1BB0) else None
            else
              if n < 0x1C50 then
                if 0x1C40 <= n < 0x1C4A then Some(0x1C40) else None
              else
                if 0x1C50 <= n < 0x1C5A then Some(0x1C50) else None
          else
            if n < 0xA900 then
              if n < 0xA8D0 then
                if 0xA620 <= n < 0xA62A then Some(0xA620) else None
              else
                if 0xA8D0 <= n < 0xA8DA then Some(0xA8D0) else None
            else
              if n < 0xA9D0 then
                if 0xA900 <= n < 0xA90A then Some(0xA900) else None
              else
                if n < 0xA9F0 then
                  if 0xA9D0 <= n < 0xA9DA then Some(0xA9D0) else None
                else
                  if 0xA9F0 <= n < 0xA9FA then Some(0xA9F0) else None
    else
      if n < 0x11C50 then
        if n < 0x111D0 then
          if n < 0x10D30 then
            if n < 0xFF10 then
              if n < 0xABF0 then
                if 0xAA50 <= n < 0xAA5A then Some(0xAA50) else None
              else
                if 0xABF0 <= n < 0xABFA then Some(0xABF0) else None
            else
              if n < 0x104A0 then
                if 0xFF10 <= n < 0xFF1A then Some(0xFF10) else None
              else
                if 0x104A0 <= n < 0x104AA then Some(0x104A0) else None
          else
            if n < 0x110F0 then
              if n < 0x11066 then
                if 0x10D30 <= n < 0x10D3A then Some(0x10D30) else None
              else
                if 0x11066 <= n < 0x11070 then Some(0x11066) else None
            else
              if n < 0x11136 then
                if 0x110F0 <= n < 0x110FA then Some(0x110F0) else None
              else
                if 0x11136 <= n < 0x11140 then Some(0x11136) else None
        else
          if n < 0x11650 then
            if n < 0x11450 then
              if n < 0x112F0 then
                if 0x111D0 <= n < 0x111DA then Some(0x111D0) else None
              else
                if 0x112F0 <= n < 0x112FA then Some(0x112F0) else None
            else
              if n < 0x114D0 then
                if 0x11450 <= n < 0x1145A then Some(0x11450) else None
              else
                if 0x114D0 <= n < 0x114DA then Some(0x114D0) else None
          else
            if n < 0x11730 then
              if n < 0x116C0 then
                if 0x11650 <= n < 0x1165A then Some(0x11650) else None
              else
                if 0x116C0 <= n < 0x116CA then Some(0x116C0) else None
            else
              if n < 0x118E0 then
                if 0x11730 <= n < 0x1173A then Some(0x11730) else None
              else
                if n < 0x11950 then
                  if 0x118E0 <= n < 0x118EA then Some(0x118E0) else None
                else
                  if 0x11950 <= n < 0x1195A then Some(0x11950) else None
      else
        if n < 0x1D7D8 then
          if n < 0x16A60 then
            if n < 0x11DA0 then
              if n < 0x11D50 then
                if 0x11C50 <= n < 0x11C5A then Some(0x11C50) else None
              else
                if 0x11D50 <= n < 0x11D5A then Some(0x11D50) else None
            else
              if n < 0x11F50 then
                if 0x11DA0 <= n < 0x11DAA then Some(0x11DA0) else None
              else
                if 0x11F50 <= n < 0x11F5A then Some(0x11F50) else None
          else
            if n < 0x16B50 then
              if n < 0x16AC0 then
                if 0x16A60 <= n < 0x16A6A then Some(0x16A60) else None
              else
                if 0x16AC0 <= n < 0x16ACA then Some(0x16AC0) else None
            else
              if n < 0x1D7CE then
                if 0x16B50 <= n < 0x16B5A then Some(0x16B50) else None
              else
                if 0x1D7CE <= n < 0x1D7D8 then Some(0x1D7CE) else None
        else
          if n < 0x1E140 then
            if n < 0x1D7EC then
              if n < 0x1D7E2 then
                if 0x1D7D8 <= n < 0x1D7E2 then Some(0x1D7D8) else None
              else
                if 0x1D7E2 <= n < 0x1D7EC then Some(0x1D7E2) else None
            else
              if n < 0x1D7F6 then
                if 0x1D7EC <= n < 0x1D7F6 then Some(0x1D7EC) else None
              else
                if 0x1D7F6 <= n < 0x1D800 then Some(0x1D7F6) else None
          else
            if n < 0x1E4F0 then
              if n < 0x1E2F0 then
                if 0x1E140 <= n < 0x1E14A then Some(0x1E140) else None
              else
                if 0x1E2F0 <= n < 0x1E2FA then Some(0x1E2F0) else None
            else
              if n < 0x1E950 then
                if 0x1E4F0 <= n < 0x1E4FA then Some(0x1E4F0) else None
              else
                if n < 0x1FBF0 then
                  if 0x1E950 <= n < 0x1E95A then Some(0x1E950) else None
                else
                  if 0x1FBF0 <= n < 0x1FBFA then Some(0x1FBF0) else None
  }

  /** The characters `int` reads as decimal digits (`str.isdecimal`). */
  predicate IsDigit(c: char) {
    DigitZero(c).Some?
  }

  /** The value of a decimal digit: its distance from its block's zero. */
  function DigitWeight(c: char): (w: int)
    requires IsDigit(c)
    ensures 0 <= w < 10
  {
    c as int - DigitZero(c).value
  }

  /** The number of digits of `s`, underscores not counted. */
  function DigitCount(s: string): nat {
    if s == [] then 0 else DigitCount(s[..|s| - 1]) + if s[|s| - 1] == '_' then 0 else 1
  }

  /** Digits, with an underscore allowed only between two digits. */
  predicate IsDecimal(s: string) {
    && s != [] && IsDigit(s[0]) && IsDigit(s[|s| - 1])
    && (forall i :: 0 <= i < |s| ==> IsDigit(s[i]) || s[i] == '_')
    && (forall i :: 0 <= i < |s| - 1 ==> !(s[i] == '_' && s[i + 1] == '_'))
  }

  /** The value of the digits of `s`, underscores skipped. */
  function DecimalValue(s: string): nat {
    if s == [] then 0
    else
      var last := s[|s| - 1];
      if IsDigit(last) then DecimalValue(s[..|s| - 1]) * 10 + DigitWeight(last)
      else DecimalValue(s[..|s| - 1])
  }

  /** The decimal digits of `n`, most significant first, as `str` writes them. */
  function Digits(n: nat): (s: string)
    ensures s != [] && forall i :: 0 <= i < |s| ==> '0' <= s[i] <= '9' && IsDigit(s[i])
  {
    var last := ['0' + (n % 10) as char];
    if n < 10 then last else Digits(n / 10) + last
  }

  /** `str(n)`: a minus sign in front of the digits of a negative number. */
  function Show(n: int): string {
    if n < 0 then "-" + Digits(-n) else Digits(n)
  }

  /** Reading digits back gives the number they were written from. */
  lemma {:induction false} DigitsValue(n: nat)
    ensures DecimalValue(Digits(n)) == n
  {
    var s := Digits(n);
    var last := ['0' + (n % 10) as char];
    if n >= 10 {
      DigitsValue(n / 10);
      assert s[..|s| - 1] == Digits(n / 10);
    } else {
      assert s[..|s| - 1] == [];
    }
  }

  /** Digits, with or without a minus sign in front, are a decimal literal
      with nothing for `strip` to remove. */
  lemma DigitsShape(m: nat)
    ensures IsDecimal(Digits(m)) && DigitCount(Digits(m)) == |Digits(m)|
    ensures IntStrip(Digits(m)) == Digits(m) && IntStrip("-" + Digits(m)) == "-" + Digits(m)
  {
    var d := Digits(m);
    var neg := "-" + d;
    AllDigitsCount(d);
    assert !IsIntSpace(d[0]) && !IsIntSpace(d[|d| - 1]);
    StripFixpoint(d, IsIntSpace);
    assert neg[|neg| - 1] == d[|d| - 1];
    StripFixpoint(neg, IsIntSpace);
  }

  /** Without underscores, every character is a counted digit. */
  lemma {:induction false} AllDigitsCount(s: string)
    requires forall i :: 0 <= i < |s| ==> IsDigit(s[i])
    ensures DigitCount(s) == |s|
  {
    if s != [] {
      assert s[|s| - 1] != '_';
      AllDigitsCount(s[..|s| - 1]);
    }
  }

  /** `int(str(n)) == n` for every integer `str` writes within the digit
      limit. */
  lemma ParseShow(n: int)
    requires |Digits(if n < 0 then -n else n)| <= MaxStrDigits
    ensures ParseInt(Show(n)) == Some(n)
  {
    var m: nat := if n < 0 then -n else n;
    var d := Digits(m);
    DigitsValue(m);
    DigitsShape(m);
    ParseDecimal(d);
  }

  /** Digits with nothing to strip, unsigned or after a minus sign, read as
      their value or its negation. */
  lemma ParseDecimal(d: string)
    requires d != [] && d[0] != '-' && d[0] != '+'
    requires IsDecimal(d) && DigitCount(d) <= MaxStrDigits
    requires IntStrip(d) == d && IntStrip("-" + d) == "-" + d
    ensures ParseInt(d) == Some(DecimalValue(d) as int)
    ensures ParseInt("-" + d) == Some(-(DecimalValue(d) as int))
  {
    assert ReadDigits(d) == Some(DecimalValue(d) as int);
    ParseUnsigned(d, DecimalValue(d));
    ParseNegated(d, DecimalValue(d));
  }

  lemma ParseUnsigned(d: string, n: int)
    requires d != [] && d[0] != '-' && d[0] != '+'
    requires ReadDigits(d) == Some(n) && IntStrip(d) == d
    ensures ParseInt(d) == Some(n)
  {
  }

  lemma ParseNegated(d: string, n: int)
    requires ReadDigits(d) == Some(n) && IntStrip("-" + d) == "-" + d
    ensures ParseInt("-" + d) == Some(-n)
  {
    assert ("-" + d)[1..] == d;
  }

  /** Two digits with nothing to strip read as their two-digit value. */
  lemma ParseTwoDigits(s: string)
    requires |s| == 2 && IsDigit(s[0]) && IsDigit(s[1]) && !IsIntSpace(s[0]) && !IsIntSpace(s[1])
    requires s[0] != '-' && s[0] != '+'
    ensures ParseInt(s) == Some(10 * DigitWeight(s[0]) + DigitWeight(s[1]))
  {
    StripFixpoint(s, IsIntSpace);
    assert !IsDigit('_');
    assert s[..1][..0] == [] && s[..1] == [s[0]];
    assert s[..|s| - 1] == s[..1] && s[|s| - 1] == s[1] && s[0] != '_' && s[1] != '_';
    assert DigitCount(s[..1]) == 1;
    assert DigitCount(s) == DigitCount(s[..|s| - 1]) + 1;
    assert IsDecimal(s);
    assert DecimalValue(s[..1]) == DigitWeight(s[0]);
    assert IntStrip(s) == s;
  }

  /** `int` reads decimal digits of any script: full-width and Arabic-Indic
      nine and zero both read as 90. */
  lemma ParseOtherScripts()
    ensures ParseInt("\U{FF19}\U{FF10}") == Some(90)
    ensures ParseInt("\U{0669}\U{0660}") == Some(90)
  {
    var full, arabic := "\U{FF19}\U{FF10}", "\U{0669}\U{0660}";
    assert DigitZero(full[0]) == Some(0xFF10) && DigitZero(full[1]) == Some(0xFF10);
    ParseTwoDigits(full);
    assert DigitZero(arabic[0]) == Some(0x660) && DigitZero(arabic[1]) == Some(0x660);
    ParseTwoDigits(arabic);
  }

  /** A file separator in front of the digits is not padding for `int`, so
      `int` fails where `strip` would have removed it. */
  lemma SeparatorNotPadding()
    ensures PyStrip("\U{001C}90") == "90"
    ensures ParseInt("\U{001C}90") == None
  {
    var fs := "\U{001C}90";
    assert DropLeading(fs, IsPySpace) == DropLeading(fs[1..], IsPySpace) == "90";
    assert DropTrailing("90", IsPySpace) == "90";
    assert DropLeading(fs, IsIntSpace) == fs;
    assert DropTrailing(fs, IsIntSpace) == fs;
    assert !IsDigit(fs[0]);
  }

  /** Non-ASCII white space and the ASCII white space other than the
      separators are padding for `int`: a no-break space in front and a line
      feed behind are skipped. */
  lemma OtherPaddingSkipped()
    ensures ParseInt("\U{00A0}90\n") == Some(90)
  {
    var nb := "\U{00A0}90\n";
    assert DropLeading(nb, IsIntSpace) == DropLeading(nb[1..], IsIntSpace) == "90\n";
    assert DropTrailing("90\n", IsIntSpace) == DropTrailing("90", IsIntSpace) == "90";
    assert IntStrip(nb) == IntStrip("90");
    Defaults();
  }

  /** `max(1, min(100, n))`. */
  function Clamp(n: int): (q: int)
    ensures 1 <= q <= 100
    ensures 1 <= n <= 100 ==> q == n
    ensures n < 1 ==> q == 1
    ensures n > 100 ==> q == 100
  {
    if n < 1 then 1 else if n > 100 then 100 else n
  }

  /** The defaults `"jpeg"` and `"90"` read as the JPEG format and quality 90. */
  lemma Defaults()
    ensures Lower("jpeg") == "jpeg"
    ensures ParseInt("90") == Some(90)
  {
    LowerNormalises("jpeg");
    assert Digits(9) == "9" && Show(90) == "90";
    ParseShow(90);
  }

  datatype Quality = NoQuality | Quality(value: int) | InvalidQuality

  /** The JPEG quality: only for the `jpg`/`jpeg` formats (case-insensitive,
      `jpeg` by default), read from `quality` (`"90"` by default) and clamped
      to 1..100; a value `int` rejects fails the request. */
  function JpegQuality(format: Option<string>, quality: Option<string>): (q: Quality)
    ensures q.Quality? ==> 1 <= q.value <= 100
    ensures q.NoQuality? <==> Lower(format.GetOr("jpeg")) !in {"jpg", "jpeg"}
    ensures format.None? && quality.None? ==> q == Quality(90)
    ensures q.InvalidQuality? <==> !q.NoQuality? && ParseInt(quality.GetOr("90")).None?
    ensures !q.NoQuality? && ParseInt(quality.GetOr("90")).Some? ==>
      q == Quality(Clamp(ParseInt(quality.GetOr("90")).value))
  {
    Defaults();
    var fmt := Lower(format.GetOr("jpeg"));
    if fmt !in {"jpg", "jpeg"} then NoQuality
    else
      var q := quality.GetOr("90");
      match ParseInt(q)
      case Some(n) => Quality(Clamp(n))
      case None => InvalidQuality
  }

  /** The `labels` and `conf` switches: off only for the literal `"0"`, on by default. */
  function Flag(arg: Option<string>): (on: bool)
    ensures !on <==> arg == Some("0")
  {
    arg.GetOr("1") != "0"
  }

  /** `lw`: a line width when the argument is non-empty and parses as an
      integer; otherwise the plotting default. */
  function LineWidth(lw: Option<string>): (w: Option<int>)
    ensures lw.None? || lw == Some("") ==> w.None?
    ensures lw.Some? && lw.value != "" ==> w == ParseInt(lw.value)
  {
    if lw.None? || lw.value == "" then None else ParseInt(lw.value)
  }
}

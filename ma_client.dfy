/** The Music Assistant client of the Music Assistant add-on
    (plugin.audio.musicassistant/resources/lib/ma_client.py): image URLs,
    the command payload, how a server reply becomes a result or an error,
    and the argument maps of the library and queue commands. The HTTP
    transport itself is an oracle: a command's reply is given, not fetched. */
module MaClient {
  import opened Wrappers
  import opened Strings

  /** A JSON value as the server sends it. */
  datatype Json =
    | JNull
    | JBool(b: bool)
    | JInt(i: int)
    | JStr(s: string)
    | JList(items: seq<Json>)
    | JObj(fields: map<string, Json>)

  /** Python truthiness of a decoded JSON value. */
  predicate Truthy(v: Json)
  {
    match v
    case JNull => false
    case JBool(b) => b
    case JInt(i) => i != 0
    case JStr(s) => s != []
    case JList(items) => items != []
    case JObj(fields) => fields != map[]
  }

  /** `d.get(k)`: the value under `k`, or `None` when the key is absent. */
  function Field(d: map<string, Json>, k: string): Json
  {
    if k in d then d[k] else JNull
  }

  /** The client's connection settings. */
  datatype Client = Client(serverUrl: string, token: Option<string>)

  predicate HasToken(c: Client)
  {
    c.token.Some? && c.token.value != []
  }

  /** `MusicAssistantClient(server_url, token)`: the server URL is kept
      without its trailing slashes. */
  function NewClient(serverUrl: string, token: Option<string>): (c: Client)
    ensures c.token == token
    ensures StartsWith(serverUrl, c.serverUrl)
    ensures c.serverUrl == [] || c.serverUrl[|c.serverUrl| - 1] != '/'
    ensures forall i :: |c.serverUrl| <= i < |serverUrl| ==> serverUrl[i] == '/'
  {
    Client(RStrip(serverUrl, '/'), token)
  }

  /** Building a client from a client's own URL changes nothing. */
  lemma NewClientIdempotent(serverUrl: string, token: Option<string>)
    ensures NewClient(NewClient(serverUrl, token).serverUrl, token) == NewClient(serverUrl, token)
  {
    var u := NewClient(serverUrl, token).serverUrl;
    assert u == [] || u[|u| - 1] != '/';
  }

  /** `_api_url`: the server URL followed by `/api`, with no doubled slash
      since the URL has no trailing one. */
  function ApiUrl(c: Client): (r: string)
    requires c.serverUrl == [] || c.serverUrl[|c.serverUrl| - 1] != '/'
    ensures EndsWith(r, "/api") && StartsWith(r, c.serverUrl)
    ensures |r| == 4 || r[|r| - 5] != '/'
  {
    assert (c.serverUrl + "/api")[..|c.serverUrl|] == c.serverUrl;
    c.serverUrl + "/api"
  }

  // ---------------------------------------------------------------- image URLs

  /** `a or b or c` on decoded values. */
  function FirstTruthy(a: Json, b: Json, c: Json): (r: Json)
    ensures Truthy(r) <==> Truthy(a) || Truthy(b) || Truthy(c)
    ensures Truthy(r) ==> r == a || r == b || r == c
  {
    if Truthy(a) then a else if Truthy(b) then b else c
  }

  /** The link `_build_image_url` starts from: the string itself, or an
      object's `path`, `url` or `thumb`, whichever is first truthy. No link
      (an empty string, an object without one, any other value) is `None`.
      A truthy link that is not a string makes `url.startswith` raise
      `AttributeError`: that is `Err` with the offending value. */
  function ImageLink(image: Json): (r: Result<Option<string>, Json>)
    ensures r.Ok? && r.value.Some? ==> r.value.value != []
    ensures !image.JStr? && !image.JObj? ==> r == Ok(None)
    ensures image.JStr? ==> r == if image.s == [] then Ok(None) else Ok(Some(image.s))
    ensures r.Err? ==> image.JObj? && Truthy(r.error) && !r.error.JStr?
  {
    match image
    case JStr(s) => if s == [] then Ok(None) else Ok(Some(s))
    case JObj(f) =>
      var link := FirstTruthy(Field(f, "path"), Field(f, "url"), Field(f, "thumb"));
      if !Truthy(link) then Ok(None)
      else if link.JStr? then Ok(Some(link.s))
      else Err(link)
    case _ => Ok(None)
  }

  /** A `/`-relative link is prefixed with the server URL; any other is
      kept as it is. */
  function AbsoluteUrl(serverUrl: string, link: string): (r: string)
    ensures EndsWith(r, link)
    ensures StartsWith(link, "/") ==> StartsWith(r, serverUrl) && |r| == |serverUrl| + |link|
    ensures !StartsWith(link, "/") ==> r == link
  {
    if StartsWith(link, "/") then
      assert (serverUrl + link)[|serverUrl|..] == link;
      assert (serverUrl + link)[..|serverUrl|] == serverUrl;
      serverUrl + link
    else link
  }

  /** The token is appended as a query parameter when the client has one
      and the URL does not already carry a `token=`: after `&` when the URL
      has a query, after `?` otherwise. */
  function WithToken(token: Option<string>, url: string): (r: string)
    ensures StartsWith(r, url)
    ensures token.None? || token.value == [] || Contains(url, "token=") ==> r == url
    ensures token.Some? && token.value != [] && !Contains(url, "token=") ==>
              |r| > |url| && r[|url|] == (if '?' in url then '&' else '?') && EndsWith(r, "token=" + token.value)
    ensures token.Some? && token.value != [] ==> Contains(r, "token=")
  {
    if token.Some? && token.value != [] && !Contains(url, "token=") then
      var sep := if '?' in url then '&' else '?';
      var r := url + [sep] + "token=" + token.value;
      assert r == (url + [sep]) + ("token=" + token.value);
      assert r[..|url|] == url;
      assert OccursAt(r, "token=", |url| + 1);
      r
    else url
  }

  /** `_build_image_url`: the image's link made absolute and carrying the
      token. */
  function BuildImageUrl(c: Client, image: Json): (r: Result<Option<string>, Json>)
    ensures r.Err? <==> ImageLink(image).Err?
    ensures r.Ok? ==> (r.value.None? <==> ImageLink(image).value.None?)
    ensures r.Ok? && r.value.Some? ==> r.value.value != []
    ensures r.Ok? && r.value.Some? && StartsWith(ImageLink(image).value.value, "/") ==> StartsWith(r.value.value, c.serverUrl)
    ensures r.Ok? && r.value.Some? && !StartsWith(ImageLink(image).value.value, "/") ==> StartsWith(r.value.value, ImageLink(image).value.value)
    ensures r.Ok? && r.value.Some? && HasToken(c) ==> Contains(r.value.value, "token=")
  {
    match ImageLink(image)
    case Err(v) => Err(v)
    case Ok(None) => Ok(None)
    case Ok(Some(link)) => Ok(Some(WithToken(c.token, AbsoluteUrl(c.serverUrl, link))))
  }

  /** The URL `_build_image_url` returns for a link. */
  lemma BuiltUrlShape(c: Client, link: string)
    requires link != []
    ensures var u := WithToken(c.token, AbsoluteUrl(c.serverUrl, link));
            u != [] && (StartsWith(u, "/") ==> StartsWith(link, "/") && (c.serverUrl == [] || StartsWith(c.serverUrl, "/")))
  {
    var a := AbsoluteUrl(c.serverUrl, link);
    var u := WithToken(c.token, a);
    assert a != [];
    assert u[0] == a[0];
    if StartsWith(link, "/") && c.serverUrl != [] {
      assert a[0] == c.serverUrl[0];
    } else if !StartsWith(link, "/") {
      assert a[0] == link[0];
    }
  }

  /** Building an image URL from a URL the client built returns it
      unchanged, as long as the server URL does not itself start with `/`. */
  lemma {:induction false} BuildImageUrlIdempotent(c: Client, image: Json)
    requires !StartsWith(c.serverUrl, "/")
    requires BuildImageUrl(c, image).Ok? && BuildImageUrl(c, image).value.Some?
    ensures BuildImageUrl(c, JStr(BuildImageUrl(c, image).value.value)) == BuildImageUrl(c, image)
  {
    var link := ImageLink(image).value.value;
    var u := BuildImageUrl(c, image).value.value;
    BuiltUrlShape(c, link);
    assert ImageLink(JStr(u)) == Ok(Some(u));
    var a := AbsoluteUrl(c.serverUrl, u);
    if StartsWith(u, "/") {
      assert c.serverUrl == [];
      assert a == [] + u;
    }
    assert a == u;
  }

  // ---------------------------------------------------------------- media item images

  /** The metadata keys an image is looked up under, in order. */
  const MetadataKeys: seq<string> := ["images", "image", "thumb"]

  /** The image under the first truthy metadata key from `i` on; a list
      gives its first element. */
  function MetadataImageFrom(m: map<string, Json>, i: nat): (r: Option<Json>)
    decreases |MetadataKeys| - i
  {
    if i >= |MetadataKeys| then None
    else if Truthy(Field(m, MetadataKeys[i])) then
      var img := m[MetadataKeys[i]];
      Some(if img.JList? then img.items[0] else img)
    else MetadataImageFrom(m, i + 1)
  }

  /** A list image of the requested type. */
  predicate OfType(img: Json, imageType: string)
  {
    img.JObj? && Field(img.fields, "type") == JStr(imageType)
  }

  /** The index of the first image of the requested type from `i` on. */
  function FirstOfTypeFrom(items: seq<Json>, imageType: string, i: nat): (r: Option<nat>)
    ensures r.Some? ==> i <= r.value < |items| && OfType(items[r.value], imageType)
    ensures r.Some? ==> forall j :: i <= j < r.value ==> !OfType(items[j], imageType)
    ensures r.None? ==> forall j :: i <= j < |items| ==> !OfType(items[j], imageType)
    decreases |items| - i
  {
    if i >= |items| then None
    else if OfType(items[i], imageType) then Some(i)
    else FirstOfTypeFrom(items, imageType, i + 1)
  }

  /** The image `get_media_item_image_url` picks: the item's own truthy
      `image`; else the image of the first truthy metadata key; else the
      first image of the requested type in `images`, or its first image.
      A non-object item has none. */
  function ChosenImage(item: Json, imageType: string): (r: Option<Json>)
    ensures r.None? <==>
              !item.JObj? ||
              (!Truthy(Field(item.fields, "image")) && !HasMetadataImage(item.fields) && !HasImageList(item.fields))
    ensures item.JObj? && Truthy(Field(item.fields, "image")) ==> r == Some(item.fields["image"])
    ensures item.JObj? && !Truthy(Field(item.fields, "image")) && !HasMetadataImage(item.fields) && HasImageList(item.fields) ==>
              var images := item.fields["images"].items;
              r.Some? && r.value in images &&
              ((exists k :: 0 <= k < |images| && OfType(images[k], imageType)) ==> OfType(r.value, imageType))
  {
    if !item.JObj? then None
    else
      var f := item.fields;
      if Truthy(Field(f, "image")) then Some(f["image"])
      else if Field(f, "metadata").JObj? && MetadataImageFrom(f["metadata"].fields, 0).Some? then
        MetadataImageFrom(f["metadata"].fields, 0)
      else if Field(f, "images").JList? && f["images"].items != [] then
        var images := f["images"].items;
        match FirstOfTypeFrom(images, imageType, 0)
        case Some(k) => Some(images[k])
        case None => Some(images[0])
      else None
  }

  /** Some metadata key gives an image. */
  predicate HasMetadataImage(f: map<string, Json>)
  {
    Field(f, "metadata").JObj? && MetadataImageFrom(f["metadata"].fields, 0).Some?
  }

  /** `images` is a non-empty list. */
  predicate HasImageList(f: map<string, Json>)
  {
    Field(f, "images").JList? && f["images"].items != []
  }

  /** `get_media_item_image_url` as a value. */
  function MediaItemImageUrl(c: Client, item: Json, imageType: string): (r: Result<Option<string>, Json>)
    ensures ChosenImage(item, imageType).None? ==> r == Ok(None)
    ensures r.Err? ==> ChosenImage(item, imageType).Some? && ImageLink(ChosenImage(item, imageType).value).Err?
    ensures r.Ok? && r.value.Some? ==>
              ChosenImage(item, imageType).Some? && r.value.value != [] &&
              (HasToken(c) ==> Contains(r.value.value, "token="))
  {
    match ChosenImage(item, imageType)
    case None => Ok(None)
    case Some(img) => BuildImageUrl(c, img)
  }

  /** `get_media_item_image_url`: tries the item's image, then the metadata
      keys in order, then the typed images, then the first image. */
  method GetMediaItemImageUrl(c: Client, item: Json, imageType: string) returns (r: Result<Option<string>, Json>)
    ensures r == MediaItemImageUrl(c, item, imageType)
  {
    if !item.JObj? {
      return Ok(None);
    }
    var f := item.fields;
    if Truthy(Field(f, "image")) {
      return BuildImageUrl(c, f["image"]);
    }
    var metadata := Field(f, "metadata");
    if metadata.JObj? {
      var i := 0;
      while i < |MetadataKeys|
        invariant 0 <= i <= |MetadataKeys|
        invariant MetadataImageFrom(metadata.fields, 0) == MetadataImageFrom(metadata.fields, i)
      {
        var key := MetadataKeys[i];
        if key in metadata.fields && Truthy(metadata.fields[key]) {
          var img := metadata.fields[key];
          if img.JList? {
            img := img.items[0];
          }
          return BuildImageUrl(c, img);
        }
        i := i + 1;
      }
    }
    var images := Field(f, "images");
    if images.JList? && images.items != [] {
      var j := 0;
      while j < |images.items|
        invariant 0 <= j <= |images.items|
        invariant FirstOfTypeFrom(images.items, imageType, 0) == FirstOfTypeFrom(images.items, imageType, j)
      {
        if OfType(images.items[j], imageType) {
          return BuildImageUrl(c, images.items[j]);
        }
        j := j + 1;
      }
      return BuildImageUrl(c, images.items[0]);
    }
    return Ok(None);
  }

  /** The chosen image always comes from the item: its `image`, a metadata
      value or that value's first element, or an element of `images`; and a
      truthy `image` wins whatever else the item holds. */
  lemma {:induction false} ChosenImageFromItem(item: Json, imageType: string)
    requires ChosenImage(item, imageType).Some?
    ensures item.JObj?
    ensures var img := ChosenImage(item, imageType).value;
            var f := item.fields;
            ("image" in f && img == f["image"] && Truthy(img)) ||
            ("metadata" in f && f["metadata"].JObj? &&
              exists k :: k in MetadataKeys && k in f["metadata"].fields &&
                (img == f["metadata"].fields[k] || (f["metadata"].fields[k].JList? && img in f["metadata"].fields[k].items))) ||
            ("images" in f && f["images"].JList? && img in f["images"].items)
    ensures Truthy(Field(item.fields, "image")) ==> ChosenImage(item, imageType).value == item.fields["image"]
  {
    var f := item.fields;
    var img := ChosenImage(item, imageType).value;
    if Truthy(Field(f, "image")) {
    } else if Field(f, "metadata").JObj? && MetadataImageFrom(f["metadata"].fields, 0).Some? {
      MetadataImageFromKey(f["metadata"].fields, 0);
    }
  }

  /** The metadata image is the value, or first element of the value, of
      one of the metadata keys. */
  lemma {:induction false} MetadataImageFromKey(m: map<string, Json>, i: nat)
    requires MetadataImageFrom(m, i).Some?
    ensures exists k :: k in MetadataKeys && k in m &&
              (MetadataImageFrom(m, i).value == m[k] || (m[k].JList? && MetadataImageFrom(m, i).value in m[k].items))
    decreases |MetadataKeys| - i
  {
    var k := MetadataKeys[i];
    if Truthy(Field(m, k)) {
      assert k in MetadataKeys && k in m;
      if m[k].JList? {
        assert m[k].items[0] in m[k].items;
      }
    } else {
      MetadataImageFromKey(m, i + 1);
    }
  }

  /** Without an item image or a metadata image, an image of the requested
      type is preferred over the first image: the first such one is used. */
  lemma TypedImagePreferred(item: Json, imageType: string, k: nat)
    requires item.JObj? && !Truthy(Field(item.fields, "image"))
    requires !Field(item.fields, "metadata").JObj?
    requires Field(item.fields, "images").JList?
    requires k < |item.fields["images"].items| && OfType(item.fields["images"].items[k], imageType)
    ensures ChosenImage(item, imageType).Some?
    ensures OfType(ChosenImage(item, imageType).value, imageType)
  {
    var images := item.fields["images"].items;
    var first := FirstOfTypeFrom(images, imageType, 0);
    assert first.Some?;
  }

  // ---------------------------------------------------------------- commands

  /** `send_command`'s payload: the command, and its arguments only when
      there are any. */
  method BuildPayload(command: string, args: map<string, Json>) returns (payload: map<string, Json>)
    ensures "command" in payload && payload["command"] == JStr(command)
    ensures "args" in payload <==> args != map[]
    ensures "args" in payload ==> payload["args"] == JObj(args)
    ensures payload.Keys <= {"command", "args"}
  {
    payload := map["command" := JStr(command)];
    if args != map[] {
      payload := payload["args" := JObj(args)];
    }
  }

  /** What the transport delivers: no connection, a timeout, or a status
      with a body that may not be JSON (`None`). */
  datatype Reply = NoConnection | TimedOut | Response(status: int, body: Option<Json>)

  /** The client's exceptions. `RequestFailed` is `MusicAssistantError`
      itself; the message text is not modelled. */
  datatype ClientError = CannotConnect | AuthenticationRequired | AuthenticationFailed | RequestFailed

  /** A reply object carrying an `error` key. */
  predicate IsErrorObject(v: Json)
  {
    v.JObj? && "error" in v.fields
  }

  /** `send_command` after the POST: 401 and 403 are authentication
      errors; 500 and above, any other 4xx, a body that is not JSON and a
      JSON object with an `error` key are request failures; a lost
      connection or a timeout cannot connect. Otherwise an object's
      `result` is unwrapped and any other value returned as it is. */
  function HandleReply(reply: Reply): (r: Result<Json, ClientError>)
    ensures r == Err(CannotConnect) <==> reply.NoConnection? || reply.TimedOut?
    ensures r == Err(AuthenticationRequired) <==> reply.Response? && reply.status == 401
    ensures r == Err(AuthenticationFailed) <==> reply.Response? && reply.status == 403
    ensures reply.Response? && reply.status >= 400 ==> r.Err?
    ensures r.Ok? <==> reply.Response? && reply.status < 400 && reply.body.Some? && !IsErrorObject(reply.body.value)
    ensures r.Ok? && reply.body.value.JObj? && "result" in reply.body.value.fields ==> r.value == reply.body.value.fields["result"]
    ensures r.Ok? && !(reply.body.value.JObj? && "result" in reply.body.value.fields) ==> r.value == reply.body.value
  {
    match reply
    case NoConnection => Err(CannotConnect)
    case TimedOut => Err(CannotConnect)
    case Response(status, body) =>
      if status == 401 then Err(AuthenticationRequired)
      else if status == 403 then Err(AuthenticationFailed)
      else if status >= 500 then Err(RequestFailed)
      else if status >= 400 then Err(RequestFailed)
      else if body.None? then Err(RequestFailed)
      else if IsErrorObject(body.value) then Err(RequestFailed)
      else if body.value.JObj? && "result" in body.value.fields then Ok(body.value.fields["result"])
      else Ok(body.value)
  }

  /** The arguments of the `get_library_*` queries: paging and order always,
      `favorite` when one is given, `search` when it is non-empty, and (for
      artists) `album_artists_only` when one is given. */
  method LibraryArgs(favorite: Option<bool>, search: Option<string>, limit: int, offset: int,
                     orderBy: string, albumArtistsOnly: Option<bool>) returns (args: map<string, Json>)
    ensures args.Keys <= {"limit", "offset", "order_by", "favorite", "search", "album_artists_only"}
    ensures "limit" in args && args["limit"] == JInt(limit)
    ensures "offset" in args && args["offset"] == JInt(offset)
    ensures "order_by" in args && args["order_by"] == JStr(orderBy)
    ensures "favorite" in args <==> favorite.Some?
    ensures favorite.Some? ==> args["favorite"] == JBool(favorite.value)
    ensures "search" in args <==> search.Some? && search.value != []
    ensures "search" in args ==> args["search"] == JStr(search.value)
    ensures "album_artists_only" in args <==> albumArtistsOnly.Some?
    ensures albumArtistsOnly.Some? ==> args["album_artists_only"] == JBool(albumArtistsOnly.value)
  {
    args := map["limit" := JInt(limit), "offset" := JInt(offset), "order_by" := JStr(orderBy)];
    if favorite.Some? {
      args := args["favorite" := JBool(favorite.value)];
    }
    if search.Some? && search.value != [] {
      args := args["search" := JStr(search.value)];
    }
    if albumArtistsOnly.Some? {
      args := args["album_artists_only" := JBool(albumArtistsOnly.value)];
    }
  }

  /** `play_media`'s arguments: the queue and the media always, `option`
      only when one is given, `radio_mode` only when it is on. */
  method PlayMediaArgs(queueId: string, media: Json, option: Option<string>, radioMode: bool) returns (args: map<string, Json>)
    ensures args.Keys <= {"queue_id", "media", "option", "radio_mode"}
    ensures "queue_id" in args && args["queue_id"] == JStr(queueId)
    ensures "media" in args && args["media"] == media
    ensures "option" in args <==> option.Some?
    ensures option.Some? ==> args["option"] == JStr(option.value)
    ensures "radio_mode" in args <==> radioMode
    ensures radioMode ==> args["radio_mode"] == JBool(true)
  {
    args := map["queue_id" := JStr(queueId), "media" := media];
    if option.Some? {
      args := args["option" := JStr(option.value)];
    }
    if radioMode {
      args := args["radio_mode" := JBool(radioMode)];
    }
  }
}

/** The header check and MIME extraction the download handler performs on a
    stored file's `data` (src/App.tsx:411-424): a `data:` URL in the form of
    section 3 of RFC 2397, `data:<mime>[;base64],<payload>`. The string
    `split` calls of the source are modelled by Head (the first field) and
    Tail (what follows the first separator). Base64 decoding is not part of
    this model. */
module DataUri {
  import opened Records

  /** `s.split(c)[0]`: the text before the first `c`, or all of `s`. */
  function Head(s: string, c: char): (r: string)
    ensures c !in r
    ensures |r| <= |s| && r == s[..|r|]
  {
    if s == [] || s[0] == c then []
    else [s[0]] + Head(s[1..], c)
  }

  /** The text after the first `c`; None when `s` has no `c`. */
  function Tail(s: string, c: char): (r: Option<string>)
    ensures r.Some? <==> c in s
    ensures r.Some? ==> |r.value| < |s| && r.value == s[|s| - |r.value|..]
  {
    if s == [] then None
    else if s[0] == c then Some(s[1..])
    else Tail(s[1..], c)
  }

  /** `s.split(c)[1]`: the second field, undefined when there is no `c`. */
  function Second(s: string, c: char): (r: Option<string>)
    ensures r.Some? ==> c !in r.value
  {
    match Tail(s, c)
    case None => None
    case Some(rest) => Some(Head(rest, c))
  }

  /** Splitting at the first separator of `a + [c] + b`, when `a` has none,
      gives back `a` and `b`. */
  lemma {:induction false} SplitJoined(a: string, c: char, b: string)
    requires c !in a
    ensures Head(a + [c] + b, c) == a
    ensures Tail(a + [c] + b, c) == Some(b)
  {
    if a != [] {
      assert (a + [c] + b)[1..] == a[1..] + [c] + b;
      SplitJoined(a[1..], c, b);
      assert a == [a[0]] + a[1..];
    } else {
      assert a + [c] + b == [c] + b;
    }
  }

  /** A prefix without the separator stays at the front of the first field. */
  lemma {:induction false} HeadAppend(a: string, b: string, c: char)
    requires c !in a
    ensures Head(a + b, c) == a + Head(b, c)
  {
    if a != [] {
      assert (a + b)[1..] == a[1..] + b;
      HeadAppend(a[1..], b, c);
      assert a == [a[0]] + a[1..];
    } else {
      assert a + b == b;
    }
  }

  /** A string without the separator is one field. */
  lemma {:induction false} SplitNone(a: string, c: char)
    requires c !in a
    ensures Head(a, c) == a
  {
    if a != [] {
      SplitNone(a[1..], c);
      assert a == [a[0]] + a[1..];
    }
  }

  predicate StartsWithData(s: string)
  {
    |s| >= 5 && s[..5] == "data:"
  }

  datatype DownloadError = InvalidFormat | MissingData

  /** What the download handler takes from a data URL: the MIME type it
      labels the blob with and the base64 text it decodes. */
  datatype Payload = Payload(mime: string, base64: string)

  /** The download handler's parse: not `data:` is rejected, an empty or
      missing second comma-separated field is rejected, and the MIME type is
      the text between the first `:` and the first `;` of the header. */
  function ParseDataUri(s: string): (r: Result<Payload, DownloadError>)
    ensures !StartsWithData(s) ==> r == Err(InvalidFormat)
    ensures r.Ok? ==> StartsWithData(s) && r.value.base64 != ""
                      && ',' !in r.value.base64 && ',' !in r.value.mime && ';' !in r.value.mime
    ensures StartsWithData(s) && r.Err? ==> r == Err(MissingData)
  {
    if !StartsWithData(s) then Err(InvalidFormat)
    else
      match Second(s, ',')
      case None => Err(MissingData)
      case Some(b64) =>
        if b64 == "" then Err(MissingData)
        else
          match Second(Head(s, ','), ':')
          case None => Err(MissingData)
          case Some(mimeField) => Ok(Payload(Head(mimeField, ';'), b64))
  }

  /** A prefix of `s` without `c` is part of the first field. */
  lemma {:induction false} HeadKeepsPrefix(s: string, c: char, n: nat)
    requires n <= |s| && c !in s[..n]
    ensures |Head(s, c)| >= n
  {
    if n > 0 {
      assert s[..n][0] == s[0];
      assert s[1..][..n - 1] == s[1..n];
      assert forall i :: 0 <= i < n - 1 ==> s[1..n][i] == s[..n][i + 1];
      HeadKeepsPrefix(s[1..], c, n - 1);
    }
  }

  /** A `data:` text is downloaded exactly when its second comma-separated
      field exists and is not empty; otherwise the payload is missing
      (src/App.tsx:416-419). */
  lemma ParseSucceedsExactly(s: string)
    requires StartsWithData(s)
    ensures ParseDataUri(s).Ok? <==> Second(s, ',').Some? && Second(s, ',').value != ""
    ensures ParseDataUri(s).Ok? ==> ParseDataUri(s).value.base64 == Second(s, ',').value
  {
    assert ',' !in s[..5] by {
      assert s[..5] == "data:";
    }
    HeadKeepsPrefix(s, ',', 5);
    var h := Head(s, ',');
    assert h[4] == s[4] == ':';
    assert ':' in h;
  }

  /** The data URL that `FileReader.readAsDataURL` makes of a file. */
  function DataUrl(mime: string, base64: string): string
  {
    "data:" + mime + ";base64," + base64
  }

  /** The parse of a data URL in terms of its comma- and colon-separated
      fields. */
  lemma ParseFields(s: string, b64: string, mimeField: string)
    requires StartsWithData(s) && b64 != ""
    requires Second(s, ',') == Some(b64)
    requires Second(Head(s, ','), ':') == Some(mimeField)
    ensures ParseDataUri(s) == Ok(Payload(Head(mimeField, ';'), b64))
  {
  }

  /** A file read as a data URL downloads with the MIME type and payload it
      was read with, whenever the MIME type holds none of the separators and
      the payload is non-empty base64 text (which has no comma). */
  lemma DownloadRoundTrip(mime: string, base64: string)
    requires ',' !in mime && ':' !in mime && ';' !in mime
    requires ',' !in base64 && base64 != ""
    ensures ParseDataUri(DataUrl(mime, base64)) == Ok(Payload(mime, base64))
  {
    var params := mime + [';'] + "base64";
    var header := "data" + [':'] + params;
    var s := header + [','] + base64;
    assert s == DataUrl(mime, base64);
    assert StartsWithData(s) by { assert s[..5] == header[..5] == "data:"; }
    assert ',' !in params && ':' !in params by {
      assert ',' !in "base64" && ':' !in "base64";
    }
    assert ',' !in header by { assert ',' !in "data"; }
    assert Second(s, ',') == Some(base64) by {
      SplitJoined(header, ',', base64);
      SplitNone(base64, ',');
    }
    assert Head(s, ',') == header by { SplitJoined(header, ',', base64); }
    assert Second(header, ':') == Some(params) by {
      assert ':' !in "data";
      SplitJoined("data", ':', params);
      SplitNone(params, ':');
    }
    assert Head(params, ';') == mime by { SplitJoined(mime, ';', "base64"); }
    ParseFields(s, base64, params);
  }

  /** The data URL a document renderer makes with further parameters
      between the MIME type and the payload, such as `filename=...;base64`. */
  function DataUrlWith(mime: string, params: string, base64: string): string
  {
    "data:" + mime + ";" + params + "," + base64
  }

  /** Whatever parameters follow the MIME type, as long as they hold no
      comma, the parse gives back the MIME type and the payload. */
  lemma ParamsRoundTrip(mime: string, params: string, base64: string)
    requires ',' !in mime && ':' !in mime && ';' !in mime && ',' !in params
    requires ',' !in base64 && base64 != ""
    ensures ParseDataUri(DataUrlWith(mime, params, base64)) == Ok(Payload(mime, base64))
  {
    var rest := mime + [';'] + params;
    var header := "data" + [':'] + rest;
    var s := header + [','] + base64;
    assert s == DataUrlWith(mime, params, base64);
    assert StartsWithData(s) by { assert s[..5] == header[..5] == "data:"; }
    assert ',' !in header by { assert ',' !in "data"; }
    assert Second(s, ',') == Some(base64) by {
      SplitJoined(header, ',', base64);
      SplitNone(base64, ',');
    }
    assert Head(s, ',') == header by { SplitJoined(header, ',', base64); }
    var field := mime + [';'] + Head(params, ':');
    assert Second(header, ':') == Some(field) by {
      assert ':' !in "data";
      SplitJoined("data", ':', rest);
      assert ':' !in mime + [';'];
      HeadAppend(mime + [';'], params, ':');
      assert rest == (mime + [';']) + params;
    }
    assert Head(field, ';') == mime by { SplitJoined(mime, ';', Head(params, ':')); }
    ParseFields(s, base64, field);
  }

  /** An empty payload cannot be downloaded: the data URL of an empty file
      is reported as missing data. */
  lemma EmptyPayloadMissing(mime: string)
    requires ',' !in mime
    ensures ParseDataUri(DataUrl(mime, "")) == Err(MissingData)
  {
    var header := "data:" + mime + ";base64";
    var s := header + [','] + "";
    assert s == DataUrl(mime, "");
    assert StartsWithData(s) by { assert s[..5] == header[..5] == "data:"; }
    assert ',' !in header by { assert ',' !in "data:" && ',' !in ";base64"; }
    SplitJoined(header, ',', "");
    ParseSucceedsExactly(s);
  }

  /** For example, "hello,world" does not start with `data:` and is refused. */
  lemma RejectsPlainText()
    ensures ParseDataUri("hello,world") == Err(InvalidFormat)
  {
    assert "hello,world"[..5] != "data:" by { assert "hello,world"[0] == 'h'; }
  }
}

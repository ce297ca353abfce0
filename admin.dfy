/**
 * The pure helpers and the product form state of the admin dashboard
 * (src/pages/AdminDashboard.tsx): the chatbot keyword field, the gallery of
 * secondary images, the image uploads with their size limit, the order status
 * badge and the user table's privacy and delete rules.
 */
module AdminDashboard {
  import opened Wrappers
  import opened Text

  // ---------------------------------------------------------------------------
  // Chatbot keywords

  /** Trims every piece and drops those left empty, keeping the order. */
  function Cleaned(pieces: seq<string>): (r: seq<string>)
    ensures |r| <= |pieces|
    ensures forall i :: 0 <= i < |r| ==> r[i] != [] && Trimmed(r[i])
  {
    if pieces == [] then []
    else
      var t := Trim(pieces[0]);
      if t == [] then Cleaned(pieces[1..]) else [t] + Cleaned(pieces[1..])
  }

  /** A single piece is kept, trimmed, exactly when something other than white space is left of it. */
  lemma CleanedSingle(p: string)
    ensures Cleaned([p]) == if Trim(p) == [] then [] else [Trim(p)]
  {
    assert [p][1..] == [];
  }

  /** Cleaning works piece by piece, so the kept pieces stay in their order. */
  lemma {:induction false} CleanedAppend(a: seq<string>, b: seq<string>)
    ensures Cleaned(a + b) == Cleaned(a) + Cleaned(b)
    decreases |a|
  {
    if a == [] {
      assert a + b == b;
    } else {
      assert (a + b)[0] == a[0];
      assert (a + b)[1..] == a[1..] + b;
      CleanedAppend(a[1..], b);
    }
  }

  /** Cleaning never brings in a character that none of the pieces had. */
  lemma {:induction false} CleanedKeepsOut(pieces: seq<string>, c: char)
    requires forall i :: 0 <= i < |pieces| ==> c !in pieces[i]
    ensures forall i :: 0 <= i < |Cleaned(pieces)| ==> c !in Cleaned(pieces)[i]
  {
    if pieces != [] {
      TrimKeepsChars(pieces[0]);
      CleanedKeepsOut(pieces[1..], c);
    }
  }

  /**
   * The keyword field as saved: split on commas, each piece trimmed, empty
   * pieces dropped. No keyword comes out empty, padded or holding a comma.
   */
  function ParseKeywords(text: string): (r: seq<string>)
    ensures forall i :: 0 <= i < |r| ==> r[i] != [] && Trimmed(r[i]) && ',' !in r[i]
  {
    CleanedKeepsOut(Split(text, ','), ',');
    Cleaned(Split(text, ','))
  }

  /** The pieces of "a, ,b": "a", a lone blank, and "b". */
  lemma SplitBlankPiece()
    ensures Split("a, ,b", ',') == ["a", " ", "b"]
  {
    var rest := " " + [','] + "b";
    assert "a, ,b" == "a" + [','] + rest;
    SplitAfter("a", ',', rest);
    SplitAfter(" ", ',', "b");
    SplitNone("b", ',');
  }

  /** Cleaning drops the lone blank and keeps "a" and "b". */
  lemma CleanedBlankPiece()
    ensures Cleaned(["a", " ", "b"]) == ["a", "b"]
  {
    TrimFixes("a");
    TrimFixes("b");
    TrimLeadingBlank([]);
    assert [' '] + [] == " ";
    assert ["a", " ", "b"] == ["a"] + ([" "] + ["b"]);
    CleanedAppend(["a"], [" "] + ["b"]);
    CleanedAppend([" "], ["b"]);
    CleanedSingle("a");
    CleanedSingle(" ");
    CleanedSingle("b");
  }

  /** A piece left blank between two commas is dropped: "a, ,b" saves the keywords "a" and "b". */
  lemma ParseSkipsBlankPiece()
    ensures ParseKeywords("a, ,b") == ["a", "b"]
  {
    SplitBlankPiece();
    CleanedBlankPiece();
  }

  /** The keyword field as shown when an entry is opened for editing. */
  function JoinKeywords(keywords: seq<string>): (r: string)
    ensures keywords == [] ==> r == []
    ensures keywords != [] ==> IsPrefix(keywords[0], r)
  {
    JoinWith(keywords, ", ")
  }

  /** Each keyword after the first, with the blank the join puts before it. */
  function Spaced(keywords: seq<string>): (r: seq<string>)
    ensures |r| == |keywords|
    ensures forall i :: 0 <= i < |r| ==> r[i] == [' '] + keywords[i]
  {
    if keywords == [] then [] else [[' '] + keywords[0]] + Spaced(keywords[1..])
  }

  /** A ", " before the join of a list is a "," before the join of its blank-prefixed keywords. */
  lemma {:induction false} JoinCommaBlank(t: seq<string>)
    requires |t| >= 1
    ensures ", " + JoinWith(t, ", ") == "," + JoinWith(Spaced(t), ",")
  {
    if |t| > 1 {
      JoinCommaBlank(t[1..]);
      assert Spaced(t)[1..] == Spaced(t[1..]);
      calc {
        ", " + JoinWith(t, ", ");
        ", " + (t[0] + ", " + JoinWith(t[1..], ", "));
        "," + ([' '] + t[0]) + (", " + JoinWith(t[1..], ", "));
        "," + ([' '] + t[0]) + ("," + JoinWith(Spaced(t[1..]), ","));
        "," + (([' '] + t[0]) + "," + JoinWith(Spaced(t)[1..], ","));
        "," + JoinWith(Spaced(t), ",");
      }
    }
  }

  /** Cleaning the pieces of a join gives back every keyword that was clean to begin with. */
  lemma {:induction false} CleanedSpaced(keywords: seq<string>)
    requires forall i :: 0 <= i < |keywords| ==> keywords[i] != [] && Trimmed(keywords[i])
    ensures Cleaned(Spaced(keywords)) == keywords
  {
    if keywords != [] {
      TrimLeadingBlank(keywords[0]);
      assert Spaced(keywords)[1..] == Spaced(keywords[1..]);
      CleanedSpaced(keywords[1..]);
    }
  }

  /** The joined keywords are the comma-join of the first keyword and the blank-prefixed others. */
  lemma JoinAsPieces(keywords: seq<string>)
    requires |keywords| >= 1
    ensures JoinKeywords(keywords) == JoinWith([keywords[0]] + Spaced(keywords[1..]), ",")
  {
    var first, rest := keywords[0], keywords[1..];
    var pieces := [first] + Spaced(rest);
    assert pieces[1..] == Spaced(rest);
    if rest != [] {
      JoinCommaBlank(rest);
      calc {
        JoinKeywords(keywords);
        first + ", " + JoinWith(rest, ", ");
        first + (", " + JoinWith(rest, ", "));
        first + ("," + JoinWith(Spaced(rest), ","));
        first + "," + JoinWith(Spaced(rest), ",");
      }
    }
  }

  /**
   * Saving what the edit form shows gives back the same keywords, as long as
   * every keyword is non-empty, unpadded and comma-free.
   */
  lemma ParseJoinRoundTrip(keywords: seq<string>)
    requires forall i :: 0 <= i < |keywords| ==> keywords[i] != [] && Trimmed(keywords[i]) && ',' !in keywords[i]
    ensures ParseKeywords(JoinKeywords(keywords)) == keywords
  {
    if keywords == [] {
      assert Split([], ',') == [[]];
      TrimFixes([]);
    } else {
      var first, rest := keywords[0], keywords[1..];
      var pieces := [first] + Spaced(rest);
      JoinAsPieces(keywords);
      forall i | 0 <= i < |pieces| ensures ',' !in pieces[i] {
        if i > 0 {
          assert pieces[i] == [' '] + rest[i - 1];
        }
      }
      SplitJoin(pieces, ',');
      assert Split(JoinKeywords(keywords), ',') == pieces;
      CleanedSpaced(rest);
      TrimFixes(first);
      assert pieces[1..] == Spaced(rest);
      assert Cleaned(pieces) == [first] + Cleaned(Spaced(rest));
    }
  }

  /** Opening and saving an entry again leaves its keywords as they were saved. */
  lemma ParseIdempotent(text: string)
    ensures ParseKeywords(JoinKeywords(ParseKeywords(text))) == ParseKeywords(text)
  {
    ParseJoinRoundTrip(ParseKeywords(text));
  }

  // ---------------------------------------------------------------------------
  // Images

  /** `images.filter((_, i) => i !== idx)`. */
  function WithoutIndex(images: seq<string>, idx: int): (r: seq<string>)
    ensures |r| == if 0 <= idx < |images| then |images| - 1 else |images|
  {
    if images == [] then []
    else WithoutIndex(images[..|images| - 1], idx) + (if |images| - 1 != idx then [images[|images| - 1]] else [])
  }

  /** Removing an image deletes exactly that position and keeps the others in order; any other index removes nothing. */
  lemma {:induction false} WithoutIndexIsSplice(images: seq<string>, idx: int)
    ensures 0 <= idx < |images| ==> WithoutIndex(images, idx) == images[..idx] + images[idx + 1..]
    ensures !(0 <= idx < |images|) ==> WithoutIndex(images, idx) == images
    decreases |images|
  {
    if images != [] {
      var front := images[..|images| - 1];
      WithoutIndexIsSplice(front, idx);
      if idx == |images| - 1 {
        assert images[..idx] + images[idx + 1..] == front;
      } else if 0 <= idx < |images| - 1 {
        assert images[..idx] + images[idx + 1..] == front[..idx] + front[idx + 1..] + [images[|images| - 1]];
      } else {
        assert front + [images[|images| - 1]] == images;
      }
    }
  }

  /** A file picked in the form: its name and its size in bytes. */
  datatype File = File(name: string, size: nat)

  /** `name.split('.').pop()`: the text after the last dot, or the whole name when it has none. */
  function Extension(name: string): (r: string)
    ensures '.' !in r
    ensures |r| <= |name| && r == name[|name| - |r|..]
    ensures '.' in name ==> |r| < |name| && name[|name| - |r| - 1] == '.'
    ensures '.' !in name ==> r == name
  {
    var pieces := Split(name, '.');
    SplitLast(name, '.');
    if '.' !in name then SplitNone(name, '.'); pieces[|pieces| - 1]
    else pieces[|pieces| - 1]
  }

  /** Main images heavier than 2 MB (2 * 1024 * 1024 bytes) are refused. */
  const MaxMainImageBytes: nat := 2 * 1024 * 1024

  /**
   * Uploads the files in order, each under a name with its extension; the
   * public URLs in file order, or the error of the first upload that fails.
   * `upload` is the storage bucket: the public URL for a file stored with an
   * extension, or the error it reports.
   */
  function Store(upload: (string, File) -> Result<string>, f: File): Result<string> {
    upload(Extension(f.name), f)
  }

  function UploadAll(files: seq<File>, upload: (string, File) -> Result<string>): (r: Result<seq<string>>)
    ensures r.Ok? ==> |r.value| == |files|
  {
    if files == [] then Ok([])
    else
      var last := files[|files| - 1];
      match UploadAll(files[..|files| - 1], upload)
      case Err(e) => Err(e)
      case Ok(urls) =>
        match Store(upload, last)
        case Err(e) => Err(e)
        case Ok(url) => Ok(urls + [url])
  }

  /** The batch succeeds exactly when every file uploads. */
  lemma {:induction false} UploadAllOk(files: seq<File>, upload: (string, File) -> Result<string>)
    ensures UploadAll(files, upload).Ok? <==> forall i :: 0 <= i < |files| ==> Store(upload, files[i]).Ok?
    decreases |files|
  {
    if files != [] {
      var front, last := files[..|files| - 1], files[|files| - 1];
      assert files == front + [last];
      UploadAllOk(front, upload);
      if UploadAll(files, upload).Ok? {
        assert UploadAll(front, upload).Ok? && Store(upload, last).Ok?;
        forall i | 0 <= i < |files| ensures Store(upload, files[i]).Ok? {
          if i < |front| {
            assert files[i] == front[i];
          }
        }
      } else if UploadAll(front, upload).Err? {
        var j :| 0 <= j < |front| && !Store(upload, front[j]).Ok?;
        assert files[j] == front[j];
      } else {
        assert !Store(upload, files[|files| - 1]).Ok?;
      }
    }
  }

  /** In a successful batch, URL `i` is the one file `i` was stored under. */
  lemma {:induction false} UploadAllUrls(files: seq<File>, upload: (string, File) -> Result<string>, i: nat)
    requires UploadAll(files, upload).Ok? && i < |files|
    ensures Store(upload, files[i]).Ok?
    ensures UploadAll(files, upload).value[i] == Store(upload, files[i]).value
    decreases |files|
  {
    var front := files[..|files| - 1];
    if i < |files| - 1 {
      UploadAllUrls(front, upload, i);
      assert front[i] == files[i];
    } else {
      UploadAllOk(front, upload);
    }
  }

  /** A failed batch reports the error of the first file that failed. */
  lemma {:induction false} UploadAllErr(files: seq<File>, upload: (string, File) -> Result<string>, k: nat)
    requires k < |files| && Store(upload, files[k]).Err?
    requires forall i :: 0 <= i < k ==> Store(upload, files[i]).Ok?
    ensures UploadAll(files, upload) == Err(Store(upload, files[k]).message)
    decreases |files|
  {
    var front := files[..|files| - 1];
    if k < |files| - 1 {
      UploadAllErr(front, upload, k);
    } else {
      UploadAllOk(front, upload);
    }
  }

  // ---------------------------------------------------------------------------
  // Orders and users

  /** The order status shown: "Pagado" for a paid or approved order, "Pendiente" for any other. */
  function StatusLabel(status: string): (r: string)
    ensures r == "Pagado" <==> status == "paid" || status == "approved"
    ensures r == "Pagado" || r == "Pendiente"
  {
    if status == "paid" then "Pagado" else if status == "approved" then "Pagado" else "Pendiente"
  }

  /** The badge is green for the same statuses. */
  predicate GreenBadge(status: string) {
    status == "paid" || status == "approved"
  }

  /** The label and the colour of the badge always agree. */
  lemma LabelMatchesBadge(status: string)
    ensures StatusLabel(status) == "Pagado" <==> GreenBadge(status)
  {
  }

  /** What the user table shows in place of an email. */
  datatype EmailCell = Shown(email: string) | Private

  /** Emails are shown for administrators only. */
  function EmailShown(role: string, email: string): (r: EmailCell)
    ensures r.Shown? <==> role == "admin"
    ensures r.Shown? ==> r.email == email
  {
    if role == "admin" then Shown(email) else Private
  }

  /** The delete action is offered for every user who is not an administrator. */
  predicate CanDelete(role: string) {
    role != "admin"
  }

  /** Each user row either shows the email or offers deletion, never both and never neither. */
  lemma DeleteExactlyWhenPrivate(role: string, email: string)
    ensures CanDelete(role) <==> EmailShown(role, email) == Private
  {
  }

  // ---------------------------------------------------------------------------
  // The product form

  /** The image fields of the product form and the upload flag. */
  class ProductForm {
    var imageUrl: string
    var secondaryImages: seq<string>
    var uploading: bool

    constructor(imageUrl: string, secondaryImages: seq<string>)
      ensures this.imageUrl == imageUrl && this.secondaryImages == secondaryImages && !uploading
    {
      this.imageUrl := imageUrl;
      this.secondaryImages := secondaryImages;
      uploading := false;
    }

    /** The remove button on gallery image `idx`. */
    method RemoveSecondaryImage(idx: int)
      modifies this
      ensures secondaryImages == WithoutIndex(old(secondaryImages), idx)
      ensures 0 <= idx < |old(secondaryImages)| ==>
        secondaryImages == old(secondaryImages)[..idx] + old(secondaryImages)[idx + 1..]
      ensures imageUrl == old(imageUrl) && uploading == old(uploading)
    {
      WithoutIndexIsSplice(secondaryImages, idx);
      secondaryImages := WithoutIndex(secondaryImages, idx);
    }

    /**
     * The gallery file input: nothing happens without files; otherwise every
     * file is uploaded in order and the new URLs are appended after the
     * existing ones, unless an upload fails, which leaves the gallery as it was
     * and raises an alert. The flag is down again at the end.
     */
    method UploadSecondaryImages(files: seq<File>, upload: (string, File) -> Result<string>) returns (alert: Option<string>)
      modifies this
      ensures files == [] ==> alert.None? && unchanged(this)
      ensures files != [] ==> !uploading && imageUrl == old(imageUrl)
      ensures files != [] ==> match UploadAll(files, upload)
        case Ok(urls) => secondaryImages == old(secondaryImages) + urls && alert.None?
        case Err(e) => secondaryImages == old(secondaryImages) && alert == Some("Error: " + e)
    {
      if files == [] {
        return None;
      }
      uploading := true;
      var newUrls := secondaryImages;
      var failure: Option<string> := None;
      var i := 0;
      assert files[..0] == [] && newUrls[|secondaryImages|..] == [];
      while i < |files|
        modifies {}
        invariant 0 <= i <= |files|
        invariant failure.None? ==> |secondaryImages| <= |newUrls| && newUrls[..|secondaryImages|] == secondaryImages
        invariant failure.None? ==> UploadAll(files[..i], upload) == Ok(newUrls[|secondaryImages|..])
        invariant failure.Some? ==> i == |files| && UploadAll(files, upload) == Err(failure.value)
      {
        var file := files[i];
        assert files[..i + 1][..i] == files[..i];
        var result := Store(upload, file);
        if result.Err? {
          failure := Some(result.message);
          UploadErrPropagates(files, upload, i + 1);
          i := |files|;
        } else {
          assert (newUrls + [result.value])[|secondaryImages|..] == newUrls[|secondaryImages|..] + [result.value];
          newUrls := newUrls + [result.value];
          i := i + 1;
        }
      }
      assert failure.None? ==> files[..i] == files;
      if failure.Some? {
        alert := Some("Error: " + failure.value);
      } else {
        secondaryImages := newUrls;
        alert := None;
      }
      uploading := false;
    }

    /**
     * The main image file input: nothing happens without a file; a file over
     * the size limit is refused with an alert before anything is uploaded;
     * otherwise the uploaded file's URL becomes the main image, or the upload
     * error is alerted and the image stays as it was.
     */
    method UploadMainImage(file: Option<File>, upload: (string, File) -> Result<string>) returns (alert: Option<string>)
      modifies this
      ensures file.None? ==> alert.None? && unchanged(this)
      ensures file.Some? && file.value.size > MaxMainImageBytes ==>
        alert == Some("La imagen no debe pesar más de 2MB") && unchanged(this)
      ensures file.Some? && file.value.size <= MaxMainImageBytes ==>
        !uploading && secondaryImages == old(secondaryImages) &&
        match upload(Extension(file.value.name), file.value)
        case Ok(url) => imageUrl == url && alert.None?
        case Err(e) => imageUrl == old(imageUrl) && alert == Some("Error al subir la imagen: " + e)
    {
      if file.None? {
        return None;
      }
      var f := file.value;
      if f.size > MaxMainImageBytes {
        return Some("La imagen no debe pesar más de 2MB");
      }
      uploading := true;
      var result := upload(Extension(f.name), f);
      match result {
        case Ok(url) =>
          imageUrl := url;
          alert := None;
        case Err(e) =>
          alert := Some("Error al subir la imagen: " + e);
      }
      uploading := false;
    }
  }

  /** Once a prefix of the files fails, so does every longer prefix, with the same error. */
  lemma {:induction false} UploadErrPropagates(files: seq<File>, upload: (string, File) -> Result<string>, n: nat)
    requires 1 <= n <= |files|
    requires UploadAll(files[..n - 1], upload).Ok? && Store(upload, files[n - 1]).Err?
    ensures UploadAll(files, upload) == Err(Store(upload, files[n - 1]).message)
  {
    UploadAllOk(files[..n - 1], upload);
    forall i | 0 <= i < n - 1 ensures Store(upload, files[i]).Ok? {
      assert files[..n - 1][i] == files[i];
    }
    UploadAllErr(files, upload, n - 1);
  }
}

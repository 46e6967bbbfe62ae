/** The Cloudinary public id that deleteImage (middlewares/cloudinaryMiddleware.js)
    derives from a stored image URL before asking for its destruction: the
    folder "images/", then the URL's last path segment with a trailing
    extension removed. */
module ImageIds {

  const Folder: string := "images/"

  /** The class `\w` of a JavaScript regular expression without the `u` flag. */
  predicate IsWordChar(c: char) {
    ('A' <= c <= 'Z') || ('a' <= c <= 'z') || ('0' <= c <= '9') || c == '_'
  }

  /** `url.split("/").pop()`: the longest suffix of `url` without a "/". */
  function LastSegment(url: string): (r: string)
    ensures '/' !in r
    ensures |r| <= |url| && r == url[|url| - |r|..]
    ensures |r| < |url| ==> url[|url| - |r| - 1] == '/'
  {
    if url == [] then []
    else if url[|url| - 1] == '/' then []
    else LastSegment(url[..|url| - 1]) + [url[|url| - 1]]
  }

  /** The length of the longest suffix of `s` made of word characters. */
  function WordSuffixLength(s: string): (n: nat)
    ensures n <= |s|
    ensures forall j :: |s| - n <= j < |s| ==> IsWordChar(s[j])
    ensures n < |s| ==> !IsWordChar(s[|s| - n - 1])
  {
    if s == [] then 0
    else if IsWordChar(s[|s| - 1]) then WordSuffixLength(s[..|s| - 1]) + 1
    else 0
  }

  /** `.replace(/\.\w+$/, "")` */
  function StripExtension(seg: string): (r: string)
    ensures r <= seg
  {
    var n := WordSuffixLength(seg);
    if 0 < n < |seg| && seg[|seg| - n - 1] == '.' then seg[..|seg| - n - 1] else seg
  }

  /** The pattern `\.\w+$` matches at position `p`: a dot there, followed by one
      or more word characters up to the end. */
  ghost predicate ExtensionAt(s: string, p: int) {
    0 <= p < |s| - 1 && s[p] == '.' && forall j :: p < j < |s| ==> IsWordChar(s[j])
  }

  /** The pattern matches at most once, since a dot is not a word character:
      only the last extension can be removed. */
  lemma ExtensionIsUnique(s: string, p: int, q: int)
    requires ExtensionAt(s, p) && ExtensionAt(s, q)
    ensures p == q
  {
    assert !IsWordChar('.');
  }

  /** StripExtension does what the replacement does: where the pattern matches,
      the text from the dot on is dropped; where it does not, nothing changes. */
  lemma StripExtensionIsTheReplacement(s: string)
    ensures forall p :: ExtensionAt(s, p) ==> StripExtension(s) == s[..p]
    ensures (forall p :: !ExtensionAt(s, p)) ==> StripExtension(s) == s
  {
    var n := WordSuffixLength(s);
    forall p | ExtensionAt(s, p) ensures StripExtension(s) == s[..p] {
      assert !IsWordChar(s[p]);
    }
    if 0 < n < |s| && s[|s| - n - 1] == '.' {
      assert ExtensionAt(s, |s| - n - 1);
    }
  }

  /** The public id passed to `cloudinary.uploader.destroy`. */
  function PublicId(url: string): (r: string)
    ensures |r| >= |Folder| && r[..|Folder|] == Folder
    ensures '/' !in r[|Folder|..]
    ensures r[|Folder|..] <= LastSegment(url)
    ensures |url| > 0 && url[|url| - 1] == '/' ==> r == Folder
  {
    var rest := StripExtension(LastSegment(url));
    assert forall k :: 0 <= k < |rest| ==> rest[k] == LastSegment(url)[k];
    Folder + rest
  }

  lemma ExamplePhoto()
    ensures PublicId("https://res.cloudinary.com/demo/image/upload/v1/images/photo.jpg") == "images/photo"
  {
    var seg := LastSegment("https://res.cloudinary.com/demo/image/upload/v1/images/photo.jpg");
    assert seg == "photo.jpg";
    StripExtensionIsTheReplacement(seg);
    assert ExtensionAt(seg, 5);
  }

  /** Only the last of two extensions goes. */
  lemma ExampleDoubleExtension()
    ensures StripExtension("a.tar.gz") == "a.tar"
  {
    StripExtensionIsTheReplacement("a.tar.gz");
    assert ExtensionAt("a.tar.gz", 5);
  }

  /** A dot followed by nothing, or by a non-word character, is kept. */
  lemma ExamplesKept()
    ensures StripExtension("photo.") == "photo."
    ensures StripExtension("a.b-c") == "a.b-c"
    ensures StripExtension("photo") == "photo"
  {
    StripExtensionIsTheReplacement("photo.");
    StripExtensionIsTheReplacement("a.b-c");
    StripExtensionIsTheReplacement("photo");
    assert !IsWordChar('-');
  }
}

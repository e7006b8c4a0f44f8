/** Studio's small string helpers. JSON parsing is a parameter: a partial
    function from text to a JSON value. */
module Helpers {
  import opened Common
  import opened JsonValue

  /** `truncate_text`: text within the limit is kept; longer text keeps
      its first `maxLength - 3` characters (a Python slice, so a negative
      bound counts from the end) followed by "...". */
  function TruncateText(text: string, maxLength: int): (r: string)
    ensures |text| <= maxLength ==> r == text
    ensures |text| > maxLength ==> r == Slice(text, 0, maxLength - 3) + "..."
  {
    if |text| <= maxLength then text else Slice(text, 0, maxLength - 3) + "..."
  }

  /** For a limit of at least 3 the result never exceeds the limit; a cut
      text is exactly that long and starts like the original. */
  lemma TruncateFits(text: string, maxLength: int)
    requires maxLength >= 3
    ensures |TruncateText(text, maxLength)| <= maxLength
    ensures |text| > maxLength ==> |TruncateText(text, maxLength)| == maxLength
    ensures |text| > maxLength ==> TruncateText(text, maxLength)[..maxLength - 3] == text[..maxLength - 3]
  {
  }

  /** Below 3 the cut text overshoots the limit: "abcde" cut to 2 keeps
      "abcd" (the slice up to -1) and becomes 7 characters long. */
  lemma TruncateSmallLimit()
    ensures TruncateText("abcde", 2) == "abcd..."
  {
    assert Slice("abcde", 0, -1) == "abcd";
  }

  /** Where the part of `s[..e]` after its last '.' starts (0 when it
      has none). */
  function ExtensionStart(s: string, e: nat): (k: nat)
    requires e <= |s|
    ensures k <= e
    ensures forall i :: k <= i < e ==> s[i] != '.'
    ensures k > 0 ==> s[k - 1] == '.'
    decreases e
  {
    if e == 0 || s[e - 1] == '.' then e else ExtensionStart(s, e - 1)
  }

  /** What follows the last '.', or the whole name when it has none
      (`name.rsplit(".", 1)[-1]`). */
  function AfterLastDot(s: string): (r: string)
    ensures |r| <= |s| && r == s[|s| - |r|..]
    ensures '.' !in r
    ensures |r| < |s| ==> s[|s| - |r| - 1] == '.'
  {
    var k := ExtensionStart(s, |s|);
    assert forall i :: 0 <= i < |s| - k ==> s[k..][i] == s[k + i];
    s[k..]
  }

  /** The extension start is the position after a dot (or 0) from which
      no dot follows up to `e`. */
  lemma {:induction false} ExtensionStartIs(s: string, e: nat, k: nat)
    requires k <= e <= |s|
    requires k == 0 || s[k - 1] == '.'
    requires forall i :: k <= i < e ==> s[i] != '.'
    ensures ExtensionStart(s, e) == k
    decreases e
  {
    if e > k {
      ExtensionStartIs(s, e - 1, k);
    }
  }

  /** A name "<stem>.<ext>" whose extension holds no dot yields that
      extension; a name without a dot yields itself. */
  lemma AfterLastDotOf(stem: string, ext: string)
    requires '.' !in ext
    ensures AfterLastDot(stem + "." + ext) == ext
    ensures '.' !in stem ==> AfterLastDot(stem) == stem
  {
    var s := stem + "." + ext;
    forall i | |stem| + 1 <= i < |s| ensures s[i] != '.' {
      assert s[i] == ext[i - |stem| - 1];
    }
    ExtensionStartIs(s, |s|, |stem| + 1);
    assert s[|stem| + 1..] == ext;
    if '.' !in stem {
      ExtensionStartIs(stem, |stem|, 0);
    }
  }

  /** The format_map lookup with its "jpeg" default. */
  function FormatOfExtension(ext: string): (r: string)
    ensures r in {"jpeg", "png", "gif", "webp"}
    ensures ext in {"jpg", "jpeg", "png", "gif", "webp"} ==> r == (if ext == "jpg" then "jpeg" else ext)
    ensures ext !in {"jpg", "jpeg", "png", "gif", "webp"} ==> r == "jpeg"
  {
    if ext == "jpg" || ext == "jpeg" then "jpeg"
    else if ext == "png" then "png"
    else if ext == "gif" then "gif"
    else if ext == "webp" then "webp"
    else "jpeg"
  }

  /** `get_image_format`. */
  function GetImageFormat(filename: string): (r: string)
    ensures r in {"jpeg", "png", "gif", "webp"}
  {
    FormatOfExtension(AfterLastDot(Lower(filename)))
  }

  /** The format comes from the lower-cased extension after the last dot,
      whatever the case of the name: "photo.JPG" is jpeg. */
  lemma ImageFormatOfName(stem: string, ext: string)
    requires '.' !in ext
    ensures GetImageFormat(stem + "." + ext) == FormatOfExtension(Lower(ext))
  {
    var lowered := Lower(stem + "." + ext);
    assert lowered == Lower(stem) + "." + Lower(ext);
    assert '.' !in Lower(ext) by {
      forall i | 0 <= i < |ext| ensures Lower(ext)[i] != '.' {
        assert ext[i] != '.';
      }
    }
    AfterLastDotOf(Lower(stem), Lower(ext));
  }

  /** `validate_api_key`: a key is accepted exactly when it has at least
      10 characters, so the empty key never is. */
  function ValidateApiKey(apiKey: string): (ok: bool)
    ensures ok <==> |apiKey| >= 10
    ensures apiKey == "" ==> !ok
  {
    if apiKey == "" then false else |apiKey| >= 10
  }

  /** `parse_json_safely`: blank text and text the parser rejects give the
      default. */
  function ParseJsonSafely(text: string, default: Json, parse: string -> Option<Json>): (r: Json)
    ensures IsBlank(text) ==> r == default
    ensures !IsBlank(text) && parse(text).Some? ==> r == parse(text).value
    ensures !IsBlank(text) && parse(text).None? ==> r == default
  {
    if text == "" || Trim(text) == "" then default
    else
      match parse(text)
      case Some(v) => v
      case None => default
  }
}

/**
 * The file-type check of the video upload (LiveMode.jsx, handleFileUpload,
 * lines 293-302): a file is accepted when its MIME type is in the allow-list
 * or its name ends in one of seven video extensions, ignoring case.  The
 * regular expression is case-insensitive without the `u` flag; for a pattern
 * made of ASCII letters and digits that folds exactly the ASCII letters, so
 * ASCII lower-casing is the matching used here.
 */
module UploadCheck {
  import opened Wrappers

  const AllowedTypes: seq<string> :=
    ["video/mp4", "video/avi", "video/quicktime", "video/x-msvideo", "video/webm", "video/x-matroska"]

  const VideoExtensions: seq<string> := ["mp4", "avi", "mov", "mkv", "webm", "flv", "wmv"]

  datatype FileInfo = FileInfo(name: string, mimeType: string)

  datatype Decision = NoFile | Rejected | Accepted

  function LowerChar(c: char): (d: char)
    ensures 'A' <= c <= 'Z' ==> d as int == c as int + 32
    ensures !('A' <= c <= 'Z') ==> d == c
  {
    if 'A' <= c <= 'Z' then (c as int + 32) as char else c
  }

  function Lower(s: string): (r: string)
    ensures |r| == |s|
    ensures forall i :: 0 <= i < |s| ==> r[i] == LowerChar(s[i])
  {
    if s == [] then [] else [LowerChar(s[0])] + Lower(s[1..])
  }

  /** `name` ends with `suffix` (given in lower case), ignoring the case of ASCII letters. */
  predicate EndsWithIgnoringCase(name: string, suffix: string)
  {
    |suffix| <= |name| && Lower(name[|name| - |suffix|..]) == suffix
  }

  /** `/\.(mp4|avi|mov|mkv|webm|flv|wmv)$/i` matches the name. */
  predicate HasVideoExtension(name: string)
    // the shortest match is a dot and three characters, and the dot is matched literally
    ensures HasVideoExtension(name) ==> |name| >= 4 && '.' in name
  {
    exists i :: 0 <= i < |VideoExtensions| && EndsWithIgnoringCase(name, "." + VideoExtensions[i])
  }

  predicate Acceptable(f: FileInfo)
  {
    f.mimeType in AllowedTypes || HasVideoExtension(f.name)
  }

  /** What `handleFileUpload` does with the first selected file, before any request is made. */
  function Decide(file: Option<FileInfo>): (d: Decision)
    ensures d == NoFile <==> file.None?
    ensures d == Rejected <==> file.Some? && file.value.mimeType !in AllowedTypes && !HasVideoExtension(file.value.name)
  {
    match file
    case None => NoFile
    case Some(f) => if Acceptable(f) then Accepted else Rejected
  }

  lemma LowerIdempotent(s: string)
    ensures Lower(Lower(s)) == Lower(s)
  {
  }

  /** Lower-casing commutes with taking a suffix. */
  lemma LowerSuffix(s: string, k: nat)
    requires k <= |s|
    ensures Lower(s)[k..] == Lower(s[k..])
  {
  }

  /** The extension test does not depend on the case of the name. */
  lemma ExtensionCaseInsensitive(name: string)
    ensures HasVideoExtension(Lower(name)) <==> HasVideoExtension(name)
  {
    forall i | 0 <= i < |VideoExtensions|
      ensures EndsWithIgnoringCase(Lower(name), "." + VideoExtensions[i]) <==>
              EndsWithIgnoringCase(name, "." + VideoExtensions[i])
    {
      var suffix := "." + VideoExtensions[i];
      if |suffix| <= |name| {
        var k := |name| - |suffix|;
        LowerSuffix(name, k);
        LowerIdempotent(name[k..]);
      }
    }
  }

  /** Only the end of the name matters: a video name stays one behind any prefix. */
  lemma ExtensionIgnoresPrefix(prefix: string, name: string)
    requires HasVideoExtension(name)
    ensures HasVideoExtension(prefix + name)
  {
    var i :| 0 <= i < |VideoExtensions| && EndsWithIgnoringCase(name, "." + VideoExtensions[i]);
    var suffix := "." + VideoExtensions[i];
    var whole := prefix + name;
    assert whole[|whole| - |suffix|..] == name[|name| - |suffix|..];
    assert EndsWithIgnoringCase(whole, suffix);
  }

  lemma AcceptedByUpperCaseExtension()
    ensures Decide(Some(FileInfo("DashCam.MKV", "application/octet-stream"))) == Accepted
  {
    var n := "DashCam.MKV";
    assert n[7..] == ".MKV";
    assert Lower(".MKV") == ".mkv";
    assert EndsWithIgnoringCase(n, "." + VideoExtensions[3]);
  }

  lemma AcceptedByType()
    ensures Decide(Some(FileInfo("clip", "video/quicktime"))) == Accepted
  {
    assert AllowedTypes[2] == "video/quicktime";
  }

  /** The extension must be at the very end, after a dot; the MIME type is compared exactly. */
  lemma RejectedExamples()
    ensures Decide(Some(FileInfo("clip.mp4.txt", "text/plain"))) == Rejected
    ensures Decide(Some(FileInfo("mp4", "video/MP4"))) == Rejected
  {
    NoVideoExtension("clip.mp4.txt");
    NoVideoExtension("mp4");
  }

  /** A case-insensitive suffix match agrees on the last character. */
  lemma EndsWithLastChar(name: string, suffix: string)
    requires suffix != [] && EndsWithIgnoringCase(name, suffix)
    ensures LowerChar(name[|name| - 1]) == suffix[|suffix| - 1]
  {
    var tail := name[|name| - |suffix|..];
    assert Lower(tail)[|tail| - 1] == LowerChar(tail[|tail| - 1]);
  }

  lemma NoVideoExtension(name: string)
    requires (|name| >= 1 && name[|name| - 1] == 't') || |name| < 4
    ensures !HasVideoExtension(name)
  {
    forall i | 0 <= i < |VideoExtensions|
      ensures !EndsWithIgnoringCase(name, "." + VideoExtensions[i])
    {
      var ext := VideoExtensions[i];
      var suffix := "." + ext;
      assert |ext| >= 3 && ext[|ext| - 1] != 't';
      assert suffix[|suffix| - 1] == ext[|ext| - 1];
      if EndsWithIgnoringCase(name, suffix) {
        EndsWithLastChar(name, suffix);
      }
    }
  }
}

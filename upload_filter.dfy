/** The multer `fileFilter` and size limit of backend/server.js. */
module UploadFilter {
  import opened Common
  import opened Text

  /** `limits.fileSize`: 5 MB. */
  const MaxFileSize: nat := 5 * 1024 * 1024

  const FilterError := "Only .png, .jpg and .jpeg format allowed!"

  function StripTrailingSlashes(s: string): (r: string)
    ensures r == [] || r[|r| - 1] != '/'
    ensures StartsWith(s, r)
  {
    if s != [] && s[|s| - 1] == '/' then
      var r' := StripTrailingSlashes(s[..|s| - 1]);
      assert s[..|s| - 1][..|r'|] == s[..|r'|];
      r'
    else s
  }

  /** The last path component, trailing slashes ignored. */
  function BaseName(path: string): (b: string)
    ensures '/' !in b
  {
    LastSegment(StripTrailingSlashes(path))
  }

  /** The index of the last '.' in `s`. */
  function LastDot(s: string): (r: Option<nat>)
    ensures r.None? <==> '.' !in s
    ensures r.Some? ==> r.value < |s| && s[r.value] == '.' && forall j :: r.value < j < |s| ==> s[j] != '.'
  {
    if s == [] then None
    else if s[|s| - 1] == '.' then Some(|s| - 1)
    else
      var r := LastDot(s[..|s| - 1]);
      assert forall j :: 0 <= j < |s| - 1 ==> s[..|s| - 1][j] == s[j];
      assert r.None? ==> forall j :: 0 <= j < |s| ==> s[j] != '.';
      r
  }

  /** The extension of a component `b` whose last '.' is at `i`. */
  function ExtFromDot(b: string, i: nat): (e: string)
    requires i < |b| && b[i] == '.'
    requires forall j :: i < j < |b| ==> b[j] != '.'
    ensures e == "" || (e[0] == '.' && EndsWith(b, e))
    ensures forall j :: 0 < j < |e| ==> e[j] != '.'
  {
    if i == 0 then ""
    else
      var e := b[i..];
      assert forall j :: 0 < j < |e| ==> e[j] == b[i + j];
      e
  }

  /**
   * Node's `path.extname`: from the last '.' of the last component to its end; empty when
   * the component has no '.', when its only leading character is the last '.', or when it is "..".
   */
  function ExtName(path: string): (e: string)
    ensures e == "" || (e[0] == '.' && '/' !in e)
    ensures e != "" ==> EndsWith(BaseName(path), e) && forall j :: 0 < j < |e| ==> e[j] != '.'
  {
    var b := BaseName(path);
    if b == ".." then ""
    else
      match LastDot(b)
      case None => ""
      case Some(i) =>
        var e := ExtFromDot(b, i);
        assert e != "" ==> e == b[|b| - |e|..];
        e
  }

  /** The regular expression `/jpeg|jpg|png/` tested against a string. */
  predicate MatchesImageType(s: string)
    ensures MatchesImageType(s) ==> |s| >= 3
  {
    Contains(s, "jpeg") || Contains(s, "jpg") || Contains(s, "png")
  }

  /**
   * multer accepts an upload when both its MIME type and its lower-cased extension match; a
   * name without an extension is never accepted.
   */
  predicate FileFilter(mimeType: string, originalName: string)
    ensures FileFilter(mimeType, originalName) ==> MatchesImageType(mimeType) && ExtName(originalName) != ""
  {
    MatchesImageType(mimeType) && MatchesImageType(ToLower(ExtName(originalName)))
  }

  /** A name without '/' is its own base name. */
  lemma BaseNameOfPlain(name: string)
    requires '/' !in name
    ensures BaseName(name) == name
  {
    if name != [] {
      assert name[|name| - 1] in name;
    }
    assert StripTrailingSlashes(name) == name;
    LastSegmentOfPlain(name);
  }

  lemma LastDotAt(s: string, k: nat)
    requires k < |s| && s[k] == '.'
    requires forall j :: k < j < |s| ==> s[j] != '.'
    ensures LastDot(s) == Some(k)
  {
  }

  /** A file named `stem + ext`, where `ext` is a '.' followed by no '.' and no '/', has the extension `ext`. */
  lemma ExtNameOf(stem: string, ext: string)
    requires stem != "" && '/' !in stem
    requires ext != "" && ext[0] == '.' && '/' !in ext && '.' !in ext[1..]
    requires !(stem == "." && ext == ".")
    ensures ExtName(stem + ext) == ext
  {
    var name := stem + ext;
    assert '/' !in name;
    BaseNameOfPlain(name);
    assert name != ".." by {
      if |name| == 2 {
        assert |stem| == 1 && stem == [stem[0]] && stem[0] != '.';
        assert name[0] == stem[0];
      }
    }
    assert name[|stem|] == '.';
    assert forall j :: |stem| < j < |name| ==> name[j] == ext[1..][j - |stem| - 1];
    LastDotAt(name, |stem|);
    assert name[|stem|..] == ext;
  }

  lemma PngLowered()
    ensures ToLower(".PNG") == ".png"
  {
    var e := ToLower(".PNG");
    assert e[0] == LowerChar('.') == '.';
    assert e[1] == LowerChar('P') == 'p';
    assert e[2] == LowerChar('N') == 'n';
    assert e[3] == LowerChar('G') == 'g';
  }

  lemma LoweredPngMatches()
    ensures MatchesImageType(ToLower(".PNG"))
  {
    PngLowered();
    assert |"png"| == 3 && ".png"[1..4] == "png";
    assert OccursAt(".png", "png", 1);
  }

  lemma PngxMatches()
    ensures MatchesImageType(ToLower(".pngx"))
  {
    var l := ToLower(".pngx");
    assert l[1] == LowerChar('p') == 'p';
    assert l[2] == LowerChar('n') == 'n';
    assert l[3] == LowerChar('g') == 'g';
    assert l[1..4] == "png";
    assert OccursAt(l, "png", 1);
  }

  lemma ImagePngMatches()
    ensures MatchesImageType("image/png")
  {
    assert "image/png"[6..9] == "png";
    assert OccursAt("image/png", "png", 6);
  }

  /** The extension is lower-cased before matching: "photo.PNG" passes. */
  lemma AcceptsUpperCaseExtension(stem: string)
    requires stem != "" && '/' !in stem
    ensures FileFilter("image/png", stem + ".PNG")
  {
    var name := stem + ".PNG";
    assert ExtName(name) == ".PNG" by {
      assert '.' !in ".PNG"[1..];
      ExtNameOf(stem, ".PNG");
    }
    assert MatchesImageType(ToLower(ExtName(name))) by { LoweredPngMatches(); }
    assert MatchesImageType("image/png") by { ImagePngMatches(); }
  }

  /** The MIME type is matched as it is, without lower-casing. */
  lemma RejectsUpperCaseMime()
    ensures !MatchesImageType("IMAGE/PNG")
  {
    var s := "IMAGE/PNG";
    forall i: nat | i <= |s|
      ensures !OccursAt(s, "jpeg", i) && !OccursAt(s, "jpg", i) && !OccursAt(s, "png", i)
    {
      if i + 3 <= |s| {
        assert s[i..i + 3][0] == s[i];
        assert s[i..i + 3][0] != 'j' && s[i..i + 3][0] != 'p';
      }
    }
  }

  /** A name without any '.' has no extension, so it is refused whatever its MIME type says. */
  lemma RejectsNameWithoutDot(mimeType: string, name: string)
    requires '.' !in name
    ensures !FileFilter(mimeType, name)
  {
    var t := StripTrailingSlashes(name);
    assert '.' !in t by {
      assert forall i :: 0 <= i < |t| ==> t[i] == name[i];
    }
    var b := LastSegment(t);
    assert '.' !in b by {
      assert forall i :: 0 <= i < |b| ==> b[i] == t[|t| - |b| + i];
    }
    assert ExtName(name) == "";
  }

  /** A dot-file ".x" has no extension either, so ".png" is refused. */
  lemma RejectsDotFile(mimeType: string, x: string)
    requires '/' !in x && '.' !in x
    ensures !FileFilter(mimeType, "." + x)
  {
    DotFileHasNoExtension(x);
  }

  lemma DotFileHasNoExtension(x: string)
    requires '/' !in x && '.' !in x
    ensures ExtName("." + x) == ""
  {
    var name := "." + x;
    forall j | 0 <= j < |name| ensures name[j] != '/' && (0 < j ==> name[j] != '.') {
      if 0 < j {
        assert name[j] == x[j - 1];
      }
    }
    BaseNameOfPlain(name);
    assert name != ".." by { if |name| == 2 { assert name[1] == x[0]; } }
    LastDotAt(name, 0);
    ExtNameOfLeadingDot(name);
  }

  /** A base name whose only '.' is its first character has no extension. */
  lemma ExtNameOfLeadingDot(name: string)
    requires BaseName(name) == name && name != ".." && LastDot(name) == Some(0)
    ensures ExtName(name) == ""
  {
  }

  /** The extension need only contain one of the words: ".pngx" passes. */
  lemma AcceptsExtensionContainingPng(stem: string)
    requires stem != "" && '/' !in stem
    ensures FileFilter("image/png", stem + ".pngx")
  {
    var name := stem + ".pngx";
    assert ExtName(name) == ".pngx" by {
      assert '.' !in ".pngx"[1..];
      ExtNameOf(stem, ".pngx");
    }
    assert MatchesImageType(ToLower(ExtName(name))) by { PngxMatches(); }
    assert MatchesImageType("image/png") by { ImagePngMatches(); }
  }
}

/**
 * The name split at the top of `FileUtils.loadFile`: a path such as
 * `"shader.vert"` is cut on `"."` into a resource name and an extension
 * before the bundle is asked for the file.
 */
module FileNames {

  const Dot: char := '.'

  /** Every character of `s` is a dot (vacuously so for the empty string). */
  ghost predicate AllDots(s: string) {
    forall i :: 0 <= i < |s| ==> s[i] == Dot
  }

  /**
   * A path whose dot-separated segments are all non-empty: it is not
   * empty, does not start or end with a dot and has no two dots in a row.
   */
  ghost predicate WellFormed(path: string) {
    && |path| > 0
    && path[0] != Dot
    && path[|path| - 1] != Dot
    && forall i :: 0 <= i < |path| - 1 && path[i] == Dot ==> path[i + 1] != Dot
  }

  /** The length of the run of non-dot characters at the front of `s`. */
  function SegmentLength(s: string): (n: nat)
    ensures n <= |s|
    ensures forall i :: 0 <= i < n ==> s[i] != Dot
    ensures n < |s| ==> s[n] == Dot
  {
    if s == [] || s[0] == Dot then 0 else 1 + SegmentLength(s[1..])
  }

  /**
   * `s.split(separator: ".")` with Swift's default of omitting empty
   * subsequences: the maximal dot-free runs of `s`, in order.
   */
  function Split(s: string): (segments: seq<string>)
    ensures forall k :: 0 <= k < |segments| ==> |segments[k]| > 0 && Dot !in segments[k]
    decreases |s|
  {
    if s == [] then []
    else if s[0] == Dot then Split(s[1..])
    else
      var n := SegmentLength(s);
      [s[..n]] + Split(s[n..])
  }

  /** `segments.joined(separator: ".")`. */
  function Join(segments: seq<string>): string {
    if segments == [] then ""
    else if |segments| == 1 then segments[0]
    else segments[0] + [Dot] + Join(segments[1..])
  }

  /** Split produces no segment exactly when the string is empty or all dots. */
  lemma {:induction false} SplitEmptyIffAllDots(s: string)
    ensures Split(s) == [] <==> AllDots(s)
    decreases |s|
  {
    if s == [] {
    } else if s[0] == Dot {
      SplitEmptyIffAllDots(s[1..]);
      if AllDots(s[1..]) {
        forall i | 0 <= i < |s| ensures s[i] == Dot {
          if i > 0 { assert s[i] == s[1..][i - 1]; }
        }
      } else {
        var i :| 0 <= i < |s[1..]| && s[1..][i] != Dot;
        assert s[i + 1] != Dot;
      }
    } else {
      assert !AllDots(s);
    }
  }

  /** A non-empty string without dots is a single segment. */
  lemma SplitWithoutDot(s: string)
    requires |s| > 0 && Dot !in s
    ensures Split(s) == [s]
  {
    var n := SegmentLength(s);
    assert s[..n] == s && s[n..] == [];
  }

  /** Joining a non-empty list with one more segment adds a dot and that segment. */
  lemma {:induction false} JoinSnoc(segments: seq<string>, last: string)
    requires |segments| > 0
    ensures Join(segments + [last]) == Join(segments) + [Dot] + last
    decreases |segments|
  {
    if |segments| == 1 {
      assert segments + [last] == [segments[0], last];
      assert [last][1..] == [];
    } else {
      assert (segments + [last])[1..] == segments[1..] + [last];
      JoinSnoc(segments[1..], last);
    }
  }

  /**
   * A well-formed path splits into segments that join back to it; it
   * splits into at least two segments exactly when it contains a dot.
   */
  lemma {:induction false} SplitJoinRoundTrip(path: string)
    requires WellFormed(path)
    ensures Join(Split(path)) == path
    ensures |Split(path)| >= 1
    ensures Dot in path <==> |Split(path)| >= 2
    decreases |path|
  {
    var n := SegmentLength(path);
    assert n > 0;
    if n == |path| {
      assert Dot !in path by {
        forall i | 0 <= i < |path| ensures path[i] != Dot { }
      }
      SplitWithoutDot(path);
    } else {
      var rest := path[n + 1..];
      assert path[n] == Dot;
      assert n + 1 < |path|;
      assert path[n + 1] != Dot;
      assert WellFormed(rest) by {
        forall i | 0 <= i < |rest| - 1 && rest[i] == Dot ensures rest[i + 1] != Dot {
          assert path[n + 1 + i] == Dot;
        }
      }
      SplitJoinRoundTrip(rest);
      assert path[n..][1..] == rest;
      assert Split(path[n..]) == Split(rest);
      assert Split(path) == [path[..n]] + Split(rest);
      assert path == path[..n] + [Dot] + rest;
      assert Dot in path;
    }
  }

  /**
   * The name split of `loadFile`: split on dots, remove the last segment
   * as the extension, and join what is left with dots as the resource
   * name. `removeLast` traps when there is no segment, so the path must
   * hold a character other than a dot.
   */
  method SplitResourceName(path: string) returns (resource: string, extensionName: string)
    requires exists i :: 0 <= i < |path| && path[i] != Dot
    ensures |extensionName| > 0 && Dot !in extensionName
    ensures var segments := Split(path);
      && |segments| > 0
      && extensionName == segments[|segments| - 1]
      && resource == Join(segments[..|segments| - 1])
    ensures Dot !in path ==> resource == "" && extensionName == path
    ensures WellFormed(path) && Dot in path ==> resource + [Dot] + extensionName == path
  {
    SplitEmptyIffAllDots(path);
    var temp := Split(path);
    extensionName := temp[|temp| - 1];
    temp := temp[..|temp| - 1];
    resource := Join(temp);
    if Dot !in path {
      SplitWithoutDot(path);
    }
    if WellFormed(path) && Dot in path {
      var segments := Split(path);
      SplitJoinRoundTrip(path);
      assert segments == temp + [extensionName];
      JoinSnoc(temp, extensionName);
    }
  }

  /** A leading dot only yields an empty segment, which is dropped. */
  lemma LeadingDotExample()
    ensures Split(".vert") == ["vert"]
    ensures Join(Split(".vert")[..0]) == ""
  {
    SplitWithoutDot("vert");
    assert ".vert"[1..] == "vert";
  }

  /** A doubled dot yields an empty segment between them, which is dropped. */
  lemma DoubledDotExample()
    ensures Split("a..b") == ["a", "b"]
  {
    SplitWithoutDot("b");
    assert "a..b"[..1] == "a";
    assert "a..b"[1..] == "..b";
    assert "..b"[1..] == ".b";
    assert ".b"[1..] == "b";
  }
}

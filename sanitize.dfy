/** The title-to-filename sanitizer of `YouTubeService.download`:
    remove every character outside `[\w\s-]`, replace each run of `-` and
    whitespace with one `-`, and strip `-` and `_` from both ends.  `\w` and
    `\s` are taken over ASCII. */
module FileName {
  import opened Text

  /** The class `[\w\s-]`. */
  predicate Kept(c: char) { IsWordChar(c) || IsSpace(c) || c == '-' }

  /** The class `[-\s]`. */
  predicate IsSep(c: char) { c == '-' || IsSpace(c) }

  /** The characters `str.strip('-_')` removes. */
  predicate IsStripChar(c: char) { c == '-' || c == '_' }

  /** No two adjacent dashes. */
  predicate NoDoubleDash(s: string)
  {
    forall i :: 0 <= i < |s| - 1 ==> !(s[i] == '-' && s[i + 1] == '-')
  }

  /** `re.sub(r'[^\w\s-]', '', s)`. */
  function RemoveInvalid(s: string): (r: string)
    ensures forall i :: 0 <= i < |r| ==> Kept(r[i])
    ensures (forall i :: 0 <= i < |s| ==> Kept(s[i])) ==> r == s
  {
    if s == [] then []
    else
      assert s == [s[0]] + s[1..];
      (if Kept(s[0]) then [s[0]] else []) + RemoveInvalid(s[1..])
  }

  /** The input without its leading run of separators. */
  function DropSeps(s: string): (r: string)
    ensures |r| <= |s| && r == s[|s| - |r|..]
    ensures r == [] || !IsSep(r[0])
    ensures s != [] && IsSep(s[0]) ==> |r| < |s|
  {
    if s != [] && IsSep(s[0]) then DropSeps(s[1..]) else s
  }

  /** `re.sub(r'[-\s]+', '-', s)`: every maximal run of separators becomes a
      single dash. */
  function Collapse(s: string): (r: string)
    ensures forall i :: 0 <= i < |r| ==> !IsSpace(r[i])
    ensures NoDoubleDash(r)
    ensures r != [] && r[0] == '-' ==> s != [] && IsSep(s[0])
    ensures (forall i :: 0 <= i < |s| ==> Kept(s[i])) ==> forall i :: 0 <= i < |r| ==> IsWordChar(r[i]) || r[i] == '-'
    decreases |s|
  {
    if s == [] then []
    else if IsSep(s[0]) then
      var d := DropSeps(s);
      assert forall i :: 0 <= i < |d| ==> d[i] == s[|s| - |d| + i];
      "-" + Collapse(d)
    else
      assert forall i :: 0 <= i < |s| - 1 ==> s[1..][i] == s[i + 1];
      [s[0]] + Collapse(s[1..])
  }

  /** `s.lstrip('-_')`. */
  function StripLeft(s: string): (r: string)
    ensures |r| <= |s| && r == s[|s| - |r|..]
    ensures r == [] || !IsStripChar(r[0])
  {
    if s != [] && IsStripChar(s[0]) then StripLeft(s[1..]) else s
  }

  /** `s.rstrip('-_')`. */
  function StripRight(s: string): (r: string)
    ensures |r| <= |s| && r == s[..|r|]
    ensures r == [] || !IsStripChar(r[|r| - 1])
  {
    if s != [] && IsStripChar(s[|s| - 1]) then StripRight(s[..|s| - 1]) else s
  }

  /** `s.strip('-_')`. */
  function Strip(s: string): string
  {
    StripRight(StripLeft(s))
  }

  /** The file name the service derives from a title. */
  function Sanitize(title: string): string
  {
    Strip(Collapse(RemoveInvalid(title)))
  }

  /** Only word characters and dashes. */
  predicate WordOrDash(s: string)
  {
    forall i :: 0 <= i < |s| ==> IsWordChar(s[i]) || s[i] == '-'
  }

  /** A slice keeps every pointwise property and the absence of "--". */
  lemma SliceKeeps(s: string, a: nat, b: nat)
    requires a <= b <= |s|
    requires WordOrDash(s) && NoDoubleDash(s)
    ensures WordOrDash(s[a..b]) && NoDoubleDash(s[a..b])
  {
    var t := s[a..b];
    forall i | 0 <= i < |t| ensures t[i] == s[a + i] { }
    forall i | 0 <= i < |t| - 1 ensures !(t[i] == '-' && t[i + 1] == '-') {
      assert t[i] == s[a + i] && t[i + 1] == s[a + i + 1];
    }
  }

  /** Stripping keeps the shape and removes "-" and "_" from both ends. */
  lemma StripKeeps(c: string)
    requires WordOrDash(c) && NoDoubleDash(c)
    ensures WordOrDash(Strip(c)) && NoDoubleDash(Strip(c))
    ensures Strip(c) != [] ==> !IsStripChar(Strip(c)[0]) && !IsStripChar(Strip(c)[|Strip(c)| - 1])
  {
    var l := StripLeft(c);
    var r := StripRight(l);
    SliceKeeps(c, |c| - |l|, |c|);
    SliceKeeps(l, 0, |r|);
    if r != [] {
      assert r[0] == l[0];
    }
  }

  /** Word characters and dashes exclude "/", "." and whitespace. */
  lemma WordOrDashExcludes(s: string)
    requires WordOrDash(s)
    ensures '/' !in s && '.' !in s
    ensures forall i :: 0 <= i < |s| ==> !IsSpace(s[i])
  {
    forall i | 0 <= i < |s| ensures s[i] != '/' && s[i] != '.' && !IsSpace(s[i]) {
      assert IsWordChar(s[i]) || s[i] == '-';
    }
  }

  /** The sanitized name holds only word characters and dashes (so no
      whitespace and no "/"), has no "--", and neither starts nor ends with
      "-" or "_". */
  lemma SanitizeShape(title: string)
    ensures WordOrDash(Sanitize(title))
    ensures NoDoubleDash(Sanitize(title))
    ensures Sanitize(title) != [] ==> !IsStripChar(Sanitize(title)[0]) && !IsStripChar(Sanitize(title)[|Sanitize(title)| - 1])
    ensures '/' !in Sanitize(title) && '.' !in Sanitize(title)
    ensures forall i :: 0 <= i < |Sanitize(title)| ==> !IsSpace(Sanitize(title)[i])
  {
    var c := Collapse(RemoveInvalid(title));
    assert WordOrDash(c);
    StripKeeps(c);
    WordOrDashExcludes(Sanitize(title));
  }

  /** The sanitized name is a single path component. */
  lemma SanitizeNoSlash(title: string)
    ensures '/' !in Sanitize(title)
  {
    SanitizeShape(title);
  }

  lemma {:induction false} CollapseIdentity(s: string)
    requires forall i :: 0 <= i < |s| ==> !IsSpace(s[i])
    requires NoDoubleDash(s)
    ensures Collapse(s) == s
    decreases |s|
  {
    if s != [] {
      var t := s[1..];
      forall i | 0 <= i < |t| ensures !IsSpace(t[i]) {
        assert t[i] == s[i + 1];
      }
      forall i | 0 <= i < |t| - 1 ensures !(t[i] == '-' && t[i + 1] == '-') {
        assert t[i] == s[i + 1] && t[i + 1] == s[i + 2];
      }
      CollapseIdentity(t);
      if IsSep(s[0]) {
        if t != [] {
          assert !IsSep(t[0]);
        }
        assert DropSeps(s) == t;
      }
      assert s == [s[0]] + t;
    }
  }

  /** Sanitizing a sanitized name changes nothing. */
  lemma SanitizeIdempotent(title: string)
    ensures Sanitize(Sanitize(title)) == Sanitize(title)
  {
    var r := Sanitize(title);
    SanitizeShape(title);
    assert RemoveInvalid(r) == r;
    CollapseIdentity(r);
    assert StripLeft(r) == r;
    assert StripRight(r) == r;
  }
}

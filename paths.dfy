/**
 * File-system paths as Rust's `std::path::Path` compares them: as sequences
 * of components, so that prefix tests respect component boundaries
 * (`/repo1` is not a prefix of `/repo12`).
 */
module Paths {
  import opened Text
  import opened Wrappers

  /**
   * A path is its component sequence. An absolute path starts with the root
   * component "/"; a relative path may start with the current-directory
   * component "."; all other components are non-empty, contain no '/', and
   * are not ".".
   */
  type Path = seq<string>

  const RootDir: string := "/"
  const CurDir: string := "."

  predicate IsAbsolute(p: Path) {
    |p| > 0 && p[0] == RootDir
  }

  predicate IsNormal(c: string) {
    IsToken(c, IsSlash) && c != CurDir
  }

  /** The components after a leading root or current-directory component. */
  function Body(p: Path): Path {
    if |p| > 0 && (p[0] == RootDir || p[0] == CurDir) then p[1..] else p
  }

  /** A component sequence that some text can denote. */
  predicate WellFormed(p: Path) {
    forall i :: 0 <= i < |Body(p)| ==> IsNormal(Body(p)[i])
  }

  /** `Path::starts_with`: `base` is a component-wise prefix of `p`. */
  predicate StartsWith(p: Path, base: Path) {
    base <= p
  }

  /** `Path::strip_prefix`: fails exactly when `base` is not a prefix of `p`. */
  function StripPrefix(p: Path, base: Path): (r: Option<Path>)
    ensures r.Some? <==> StartsWith(p, base)
    ensures r.Some? ==> base + r.value == p
  {
    if StartsWith(p, base) then Some(p[|base|..]) else None
  }

  /**
   * `Path::join`: an absolute `more` replaces `base`; otherwise the texts are
   * joined with a separator and read again, so a leading "." of `more` is
   * dropped unless `base` is empty and `more` stands alone.
   */
  function Join(base: Path, more: Path): (r: Path)
    ensures IsAbsolute(more) ==> r == more
    ensures !IsAbsolute(more) ==>
      StartsWith(r, base) && StripPrefix(r, base) == Some(if base == [] then more else Body(more))
  {
    if IsAbsolute(more) || base == [] then more else base + Body(more)
  }

  /** Drops the "." pieces, which `Path::components` normalises away. */
  function Normals(pieces: seq<string>): (r: seq<string>)
    requires forall i :: 0 <= i < |pieces| ==> IsToken(pieces[i], IsSlash)
    ensures forall i :: 0 <= i < |r| ==> IsNormal(r[i])
    ensures |r| <= |pieces|
  {
    if pieces == [] then []
    else if pieces[0] == CurDir then Normals(pieces[1..])
    else [pieces[0]] + Normals(pieces[1..])
  }

  /** The text names a relative path whose first piece is ".": "." or "./…". */
  predicate LeadingCurDir(s: string) {
    s == CurDir || (|s| >= 2 && s[..2] == "./")
  }

  /** The components of the text `s` (`Path::new(s).components()`). */
  function PathOf(s: string): (p: Path)
    ensures WellFormed(p)
    ensures IsAbsolute(p) <==> (|s| > 0 && s[0] == '/')
  {
    var head := if |s| > 0 && s[0] == '/' then [RootDir]
                else if LeadingCurDir(s) then [CurDir]
                else [];
    var p := head + Normals(Tokens(s, IsSlash));
    assert Body(p) == Normals(Tokens(s, IsSlash));
    p
  }

  /** Components joined by '/'. */
  function JoinSlash(cs: seq<string>): string
    decreases |cs|
  {
    if cs == [] then ""
    else if |cs| == 1 then cs[0]
    else cs[0] + "/" + JoinSlash(cs[1..])
  }

  /** The text of a path (`to_string_lossy`). */
  function Display(p: Path): string {
    if IsAbsolute(p) then "/" + JoinSlash(p[1..]) else JoinSlash(p)
  }

  lemma {:induction false} TokensOfJoinSlash(cs: seq<string>)
    requires forall i :: 0 <= i < |cs| ==> IsToken(cs[i], IsSlash)
    ensures Tokens(JoinSlash(cs), IsSlash) == cs
    decreases |cs|
  {
    if |cs| == 1 {
      TokensOfToken(cs[0], IsSlash);
    } else if |cs| > 1 {
      TokensOfJoinSlash(cs[1..]);
      TokensCons(cs[0], '/', JoinSlash(cs[1..]), IsSlash);
      assert cs[0] + "/" + JoinSlash(cs[1..]) == cs[0] + ['/'] + JoinSlash(cs[1..]);
    }
  }

  lemma {:induction false} NormalsKeepsNormal(cs: seq<string>)
    requires forall i :: 0 <= i < |cs| ==> IsToken(cs[i], IsSlash) && cs[i] != CurDir
    ensures Normals(cs) == cs
    decreases |cs|
  {
    if cs != [] {
      NormalsKeepsNormal(cs[1..]);
    }
  }

  lemma {:induction false} JoinSlashHead(cs: seq<string>)
    requires |cs| > 0 && cs[0] != []
    ensures |JoinSlash(cs)| > 0 && JoinSlash(cs)[0] == cs[0][0]
    ensures |JoinSlash(cs)| >= |cs[0]| && JoinSlash(cs)[..|cs[0]|] == cs[0]
    ensures |cs| > 1 ==> |JoinSlash(cs)| > |cs[0]| && JoinSlash(cs)[|cs[0]|] == '/'
    ensures |cs| == 1 ==> JoinSlash(cs) == cs[0]
  {
  }

  /** The body of a well-formed path is made of slash-free pieces, none of them ".". */
  lemma BodyPieces(p: Path)
    requires WellFormed(p)
    ensures forall i :: 0 <= i < |Body(p)| ==> IsToken(Body(p)[i], IsSlash)
    ensures Tokens(JoinSlash(Body(p)), IsSlash) == Body(p)
    ensures Normals(Body(p)) == Body(p)
  {
    var body := Body(p);
    forall i | 0 <= i < |body| ensures IsToken(body[i], IsSlash) {
      assert IsNormal(body[i]);
    }
    TokensOfJoinSlash(body);
    NormalsKeepsNormal(body);
  }

  lemma DisplayRoundTripAbsolute(p: Path)
    requires WellFormed(p) && IsAbsolute(p)
    ensures PathOf(Display(p)) == p
  {
    BodyPieces(p);
    TokensSkipSeparators("/", JoinSlash(Body(p)), IsSlash);
  }

  lemma DisplayRoundTripCurDir(p: Path)
    requires WellFormed(p) && |p| > 0 && p[0] == CurDir
    ensures PathOf(Display(p)) == p
  {
    var body := Body(p);
    BodyPieces(p);
    assert p == [CurDir] + body;
    forall i | 0 <= i < |p| ensures IsToken(p[i], IsSlash) {
      if i > 0 { assert p[i] == body[i - 1]; }
    }
    TokensOfJoinSlash(p);
    assert Normals(p) == Normals(body);
    JoinSlashHead(p);
    assert LeadingCurDir(Display(p));
  }

  lemma DisplayRoundTripRelative(p: Path)
    requires WellFormed(p) && |p| > 0 && p[0] != RootDir && p[0] != CurDir
    ensures PathOf(Display(p)) == p
  {
    var s := Display(p);
    BodyPieces(p);
    assert Body(p) == p;
    JoinSlashHead(p);
    assert IsNormal(p[0]);
    assert s[0] == p[0][0] && p[0][0] != '/';
    if |p[0]| >= 2 {
      assert s[1] == p[0][1] && !IsSlash(p[0][1]);
    } else {
      assert p[0] == [p[0][0]] && p[0][0] != '.';
    }
    assert !LeadingCurDir(s);
  }

  /** The text of a well-formed path denotes that same path. */
  lemma DisplayRoundTrip(p: Path)
    requires WellFormed(p)
    ensures PathOf(Display(p)) == p
  {
    if IsAbsolute(p) {
      DisplayRoundTripAbsolute(p);
    } else if |p| > 0 && p[0] == CurDir {
      DisplayRoundTripCurDir(p);
    } else if |p| > 0 {
      DisplayRoundTripRelative(p);
    } else {
      assert Display(p) == "";
    }
  }

}

/** Pure POSIX paths much as pathlib.PurePosixPath sees them: an optional
    root "/" and a sequence of name components. PurePosixPath keeps exactly
    two leading slashes as a root of their own, "//"; here such a path has
    the root "/". */
module Paths {
  import opened Text

  datatype Path = Path(absolute: bool, parts: seq<string>)

  /** Every component is one pathlib can produce: non-empty, not ".", free of separators. */
  predicate GoodParts(parts: seq<string>)
  {
    forall i :: 0 <= i < |parts| ==> parts[i] != "" && parts[i] != "." && '/' !in parts[i]
  }

  predicate WellFormed(p: Path)
  {
    GoodParts(p.parts)
  }

  /** The components pathlib keeps: empty pieces and "." are dropped. */
  function Keep(pieces: seq<string>): (r: seq<string>)
    requires forall i :: 0 <= i < |pieces| ==> '/' !in pieces[i]
    ensures GoodParts(r)
    ensures |r| <= |pieces|
  {
    if pieces == [] then []
    else if pieces[0] == "" || pieces[0] == "." then Keep(pieces[1..])
    else [pieces[0]] + Keep(pieces[1..])
  }

  lemma {:induction false} KeepGood(pieces: seq<string>)
    requires GoodParts(pieces)
    ensures Keep(pieces) == pieces
  {
    if pieces != [] {
      KeepGood(pieces[1..]);
    }
  }

  /** Path(s): parse a string into a path; any number of leading slashes
      gives the root "/". */
  function Parse(s: string): (p: Path)
    ensures WellFormed(p)
    ensures p.absolute <==> s != "" && s[0] == '/'
  {
    Path(s != "" && s[0] == '/', Keep(Split(s, '/')))
  }

  /** str(p). */
  function ToString(p: Path): string
  {
    if p.parts == [] then (if p.absolute then "/" else ".")
    else (if p.absolute then "/" else "") + Join(p.parts, '/')
  }

  /** Printing a path and parsing it again gives the same path. */
  lemma ParseToString(p: Path)
    requires WellFormed(p)
    ensures Parse(ToString(p)) == p
  {
    if p.parts == [] {
      if p.absolute {
        ParseRoot();
      } else {
        assert Split(".", '/') == ["."];
      }
    } else {
      var j := Join(p.parts, '/');
      SplitJoin(p.parts, '/');
      KeepGood(p.parts);
      JoinHead(p.parts, '/');
      if p.absolute {
        ParseRooted(j, p.parts);
      } else {
        assert ToString(p) == j;
        assert p.parts[0][0] in p.parts[0];
      }
    }
  }

  /** The bare root prints as "/" and parses back to itself. */
  lemma ParseRoot()
    ensures Parse("/") == Path(true, [])
  {
    assert Split("/", '/') == ["", ""] by {
      assert IndexOf("/", '/') == 0;
      assert "/"[1..] == "";
    }
  }

  /** A leading separator adds an empty first piece, which Keep drops. */
  lemma ParseRooted(j: string, parts: seq<string>)
    requires Split(j, '/') == parts && Keep(parts) == parts
    ensures Parse("/" + j) == Path(true, parts)
  {
    var s := "/" + j;
    assert IndexOf(s, '/') == 0;
    assert s[1..] == j;
    assert Split(s, '/') == [""] + parts;
    KeepEmptyHead(parts);
  }

  lemma KeepEmptyHead(parts: seq<string>)
    requires forall i :: 0 <= i < |parts| ==> '/' !in parts[i]
    ensures Keep([""] + parts) == Keep(parts)
  {
    assert ([""] + parts)[1..] == parts;
  }

  lemma JoinHead(parts: seq<string>, sep: char)
    requires parts != [] && parts[0] != ""
    ensures Join(parts, sep) != [] && Join(parts, sep)[0] == parts[0][0]
  {
  }

  /** p.name: the last component, or "" for a bare root. */
  function Name(p: Path): string
  {
    if p.parts == [] then "" else p.parts[|p.parts| - 1]
  }

  /** p.suffix: the name from its last dot on, when that dot is neither the
      first nor the last character; otherwise "". */
  function Suffix(p: Path): (r: string)
    ensures r != "" ==> |r| >= 2 && r[0] == '.' && '.' !in r[1..]
    ensures r != "" ==> |r| < |Name(p)| && Name(p)[|Name(p)| - |r|..] == r
    ensures r == "" <==> !exists i :: 0 < i < |Name(p)| - 1 && Name(p)[i] == '.' && '.' !in Name(p)[i + 1..]
  {
    var name := Name(p);
    var i := LastIndexOf(name, '.');
    if 0 < i < |name| - 1 then
      assert '.' !in name[i + 1..] by {
        assert forall k :: i + 1 <= k < |name| ==> name[k] != '.';
      }
      name[i..]
    else
      assert forall j :: 0 < j < |name| - 1 && name[j] == '.' ==> '.' in name[j + 1..] by {
        forall j | 0 < j < |name| - 1 && name[j] == '.'
          ensures '.' in name[j + 1..]
        {
          assert name[j + 1..][i - j - 1] == name[i];
        }
      }
      ""
  }

  /** p.parent: the path without its last component; a bare root or the empty
      relative path is its own parent. */
  function Parent(p: Path): (r: Path)
    ensures r.absolute == p.absolute
    ensures p.parts != [] ==> Child(r, Name(p)) == p
    ensures p.parts == [] ==> r == p
    ensures WellFormed(p) ==> WellFormed(r)
  {
    if p.parts == [] then p
    else Path(p.absolute, p.parts[..|p.parts| - 1])
  }

  /** base / rel: an absolute right operand replaces the base. */
  function Concat(base: Path, rel: Path): (r: Path)
    ensures WellFormed(base) && WellFormed(rel) ==> WellFormed(r)
    ensures rel.absolute ==> r == rel
  {
    if rel.absolute then rel else Path(base.absolute, base.parts + rel.parts)
  }

  /** base / name for a single component. */
  function Child(base: Path, name: string): (r: Path)
    ensures r.parts != [] && Name(r) == name
    ensures r.absolute == base.absolute
  {
    Path(base.absolute, base.parts + [name])
  }

  /** The parent of a child is the directory it was made in. */
  lemma ParentOfChild(base: Path, name: string)
    ensures Parent(Child(base, name)) == base
  {
    assert (base.parts + [name])[..|base.parts|] == base.parts;
  }

  /** A proper component appended to a well-formed path keeps it well formed. */
  lemma ChildWellFormed(base: Path, name: string)
    requires WellFormed(base) && name != "" && name != "." && '/' !in name
    ensures WellFormed(Child(base, name))
  {
    var parts := base.parts + [name];
    forall i | 0 <= i < |parts|
      ensures parts[i] != "" && parts[i] != "." && '/' !in parts[i]
    {
      if i < |base.parts| {
        assert parts[i] == base.parts[i];
      }
    }
  }
}

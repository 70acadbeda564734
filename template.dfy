/** Message templates with named placeholders, as str.format(**params)
    treats them: "{name}" is replaced by params[name], "{{" and "}}" stand
    for single braces, and anything else involving braces is an error. */
module Template {
  import opened Text
  // only for Option, which is defined with the JSON values
  import opened JsonValues

  /** One unit of a parsed template: a literal character or a named field. */
  datatype Piece = Lit(c: char) | Field(name: string)

  function Cons(p: Piece, rest: Option<seq<Piece>>): (r: Option<seq<Piece>>)
    ensures r.Some? <==> rest.Some?
  {
    if rest.None? then None else Some([p] + rest.value)
  }

  /** Parses a template; None where str.format raises ValueError (a lone
      brace, an unterminated field, an empty or nested field name). */
  function ParseTemplate(s: string): (r: Option<seq<Piece>>)
    decreases |s|
  {
    if s == [] then Some([])
    else if s[0] == '{' then
      if |s| >= 2 && s[1] == '{' then Cons(Lit('{'), ParseTemplate(s[2..]))
      else
        var k := IndexOf(s[1..], '}');
        if k <= 0 then None
        else if '{' in s[1..1 + k] then None
        else Cons(Field(s[1..1 + k]), ParseTemplate(s[k + 2..]))
    else if s[0] == '}' then
      if |s| >= 2 && s[1] == '}' then Cons(Lit('}'), ParseTemplate(s[2..])) else None
    else Cons(Lit(s[0]), ParseTemplate(s[1..]))
  }

  /** A field name the parser can give back: non-empty and brace-free. */
  predicate GoodName(n: string)
  {
    n != "" && '{' !in n && '}' !in n
  }

  predicate GoodPieces(ps: seq<Piece>)
  {
    forall i :: 0 <= i < |ps| ==> ps[i].Field? ==> GoodName(ps[i].name)
  }

  function RenderPiece(p: Piece): string
  {
    match p
    case Lit(c) => if c == '{' then "{{" else if c == '}' then "}}" else [c]
    case Field(n) => "{" + n + "}"
  }

  /** Writes pieces back as template text, escaping literal braces. */
  function Render(ps: seq<Piece>): string
  {
    if ps == [] then "" else RenderPiece(ps[0]) + Render(ps[1..])
  }

  /** Parsing rendered pieces gives the pieces back. */
  lemma {:induction false} ParseRender(ps: seq<Piece>)
    requires GoodPieces(ps)
    ensures ParseTemplate(Render(ps)) == Some(ps)
  {
    if ps != [] {
      GoodTail(ps);
      ParseRender(ps[1..]);
      ParsePiece(ps[0], Render(ps[1..]));
      assert [ps[0]] + ps[1..] == ps;
    }
  }

  lemma GoodTail(ps: seq<Piece>)
    requires ps != [] && GoodPieces(ps)
    ensures GoodPieces(ps[1..])
  {
    assert forall i :: 0 <= i < |ps| - 1 ==> ps[1..][i] == ps[i + 1];
  }

  lemma ParsePiece(p: Piece, t: string)
    requires p.Field? ==> GoodName(p.name)
    ensures ParseTemplate(RenderPiece(p) + t) == Cons(p, ParseTemplate(t))
  {
    var s := RenderPiece(p) + t;
    match p
    case Lit(c) =>
      if c == '{' || c == '}' {
        assert s[2..] == t;
      } else {
        assert s[1..] == t;
      }
    case Field(n) =>
      assert s[1..] == n + "}" + t;
      IndexOfAfterFree(n, '}', t);
      assert s[1..1 + |n|] == n;
      assert s[|n| + 2..] == t;
  }

  /** The names of the fields a template uses. */
  function FieldNames(ps: seq<Piece>): set<string>
  {
    set i | 0 <= i < |ps| && ps[i].Field? :: ps[i].name
  }

  /** Fills the fields from params; None when a field has no parameter
      (str.format raises KeyError). */
  function Substitute(ps: seq<Piece>, params: map<string, string>): Option<string>
  {
    if ps == [] then Some("") else FillPiece(ps[0], params, Substitute(ps[1..], params))
  }

  /** One piece filled in front of the already filled rest. */
  function FillPiece(p: Piece, params: map<string, string>, rest: Option<string>): Option<string>
  {
    match p
    case Lit(c) => if rest.None? then None else Some([c] + rest.value)
    case Field(n) => if n !in params || rest.None? then None else Some(params[n] + rest.value)
  }

  /** Filling fails exactly when some field has no parameter. */
  lemma {:induction false} SubstituteDefined(ps: seq<Piece>, params: map<string, string>)
    ensures Substitute(ps, params).Some? <==> FieldNames(ps) <= params.Keys
  {
    if ps != [] {
      SubstituteDefined(ps[1..], params);
      FieldNamesSplit(ps);
      assert FieldNames(ps[..1]) == if ps[0].Field? then {ps[0].name} else {};
    }
  }

  lemma FieldNamesSplit(ps: seq<Piece>)
    requires ps != []
    ensures FieldNames(ps) == FieldNames(ps[..1]) + FieldNames(ps[1..])
  {
    forall n | n in FieldNames(ps)
      ensures n in FieldNames(ps[..1]) + FieldNames(ps[1..])
    {
      var i :| 0 <= i < |ps| && ps[i].Field? && ps[i].name == n;
      if i > 0 {
        assert ps[1..][i - 1] == ps[i];
      }
    }
    forall n | n in FieldNames(ps[1..])
      ensures n in FieldNames(ps)
    {
      var i :| 0 <= i < |ps[1..]| && ps[1..][i].Field? && ps[1..][i].name == n;
      assert ps[i + 1] == ps[1..][i];
    }
  }

  /** template.format(**params): the filled text, or None where Python raises. */
  function Format(template: string, params: map<string, string>): (r: Option<string>)
    ensures r.Some? <==> ParseTemplate(template).Some? && FieldNames(ParseTemplate(template).value) <= params.Keys
  {
    var parsed := ParseTemplate(template);
    if parsed.None? then None
    else
      SubstituteDefined(parsed.value, params);
      Substitute(parsed.value, params)
  }

  /** The pieces of brace-free text: one literal per character. */
  function Lits(s: string): (r: seq<Piece>)
    ensures |r| == |s|
  {
    if s == [] then [] else [Lit(s[0])] + Lits(s[1..])
  }

  /** Each piece of Lits(s) is the literal of the character at its place. */
  lemma {:induction false} LitsAt(s: string, i: int)
    requires 0 <= i < |s|
    ensures Lits(s)[i] == Lit(s[i])
  {
    if i > 0 {
      LitsAt(s[1..], i - 1);
    }
  }

  /** Text without braces parses to literals and formats to itself, whatever
      the parameters. */
  lemma PlainFormat(s: string, params: map<string, string>)
    requires '{' !in s && '}' !in s
    ensures ParseTemplate(s) == Some(Lits(s))
    ensures Substitute(Lits(s), params) == Some(s)
    ensures Format(s, params) == Some(s)
  {
    ParsePlain(s);
    SubstituteLits(s, params);
  }

  lemma {:induction false} ParsePlain(s: string)
    requires '{' !in s && '}' !in s
    ensures ParseTemplate(s) == Some(Lits(s))
  {
    if s != [] {
      ParsePlain(s[1..]);
    }
  }

  lemma {:induction false} SubstituteLits(s: string, params: map<string, string>)
    ensures Substitute(Lits(s), params) == Some(s)
  {
    if s != [] {
      SubstituteLits(s[1..], params);
      SubstituteCons(Lit(s[0]), Lits(s[1..]), params);
      assert [s[0]] + s[1..] == s;
    }
  }

  /** One field between plain text: "pre{name}post" formats to pre,
      params[name], post when name is a parameter, and fails otherwise. */
  lemma OneField(pre: string, name: string, post: string, params: map<string, string>)
    requires '{' !in pre && '}' !in pre && '{' !in post && '}' !in post
    requires GoodName(name)
    ensures name in params ==> Format(pre + "{" + name + "}" + post, params) == Some(pre + params[name] + post)
    ensures name !in params ==> Format(pre + "{" + name + "}" + post, params).None?
  {
    var ps := Lits(pre) + ([Field(name)] + Lits(post));
    OneFieldPieces(pre, name, post);
    FormatParsed(pre + "{" + name + "}" + post, ps, params);
    if name in params {
      OneFieldFilled(pre, name, post, params);
    } else {
      assert ps[|pre|] == Field(name);
      assert name in FieldNames(ps);
      SubstituteDefined(ps, params);
    }
  }

  /** Once parsed, formatting is filling the parsed pieces. */
  lemma FormatParsed(template: string, ps: seq<Piece>, params: map<string, string>)
    requires ParseTemplate(template) == Some(ps)
    ensures Format(template, params) == Substitute(ps, params)
  {
  }

  lemma OneFieldFilled(pre: string, name: string, post: string, params: map<string, string>)
    requires name in params
    ensures Substitute(Lits(pre) + ([Field(name)] + Lits(post)), params) == Some(pre + params[name] + post)
  {
    SubstituteLits(pre, params);
    SubstituteLits(post, params);
    SubstituteCons(Field(name), Lits(post), params);
    SubstituteConcat(Lits(pre), [Field(name)] + Lits(post), params);
    Regroup(pre, params[name], post);
  }

  lemma OneFieldPieces(pre: string, name: string, post: string)
    requires '{' !in pre && '}' !in pre && '{' !in post && '}' !in post
    requires GoodName(name)
    ensures ParseTemplate(pre + "{" + name + "}" + post) == Some(Lits(pre) + ([Field(name)] + Lits(post)))
  {
    var tail := [Field(name)] + Lits(post);
    var ps := Lits(pre) + tail;
    forall i | 0 <= i < |ps| && ps[i].Field?
      ensures GoodName(ps[i].name)
    {
      if i < |pre| {
        LitsAt(pre, i);
      } else if i > |pre| {
        LitsAt(post, i - |pre| - 1);
      }
    }
    RenderOneField(pre, name, post);
    ParseRender(ps);
  }

  lemma RenderOneField(pre: string, name: string, post: string)
    requires '{' !in pre && '}' !in pre && '{' !in post && '}' !in post
    ensures Render(Lits(pre) + ([Field(name)] + Lits(post))) == pre + "{" + name + "}" + post
  {
    RenderLits(post);
    RenderCons(Field(name), Lits(post));
    RenderLits(pre);
    RenderConcat(Lits(pre), [Field(name)] + Lits(post));
    Regroup("{" + name, "}", post);
    Regroup(pre, "{" + name + "}", post);
    Regroup(pre, "{", name);
    Regroup(pre + "{" + name, "}", post);
  }

  lemma RenderCons(p: Piece, t: seq<Piece>)
    ensures Render([p] + t) == RenderPiece(p) + Render(t)
  {
    assert ([p] + t)[0] == p && ([p] + t)[1..] == t;
  }

  lemma {:induction false} RenderLits(s: string)
    requires '{' !in s && '}' !in s
    ensures Render(Lits(s)) == s
  {
    if s != [] {
      RenderLits(s[1..]);
      RenderCons(Lit(s[0]), Lits(s[1..]));
      assert [s[0]] + s[1..] == s;
    }
  }

  lemma {:induction false} RenderConcat(a: seq<Piece>, b: seq<Piece>)
    ensures Render(a + b) == Render(a) + Render(b)
  {
    if a != [] {
      var p, t := a[0], a[1..];
      assert a == [p] + t;
      assert a + b == [p] + (t + b);
      RenderCons(p, t);
      RenderCons(p, t + b);
      RenderConcat(t, b);
      Regroup(RenderPiece(p), Render(t), Render(b));
    } else {
      assert a + b == b;
    }
  }

  lemma {:induction false} SubstituteConcat(a: seq<Piece>, b: seq<Piece>, params: map<string, string>)
    requires Substitute(a, params).Some? && Substitute(b, params).Some?
    ensures Substitute(a + b, params) == Some(Substitute(a, params).value + Substitute(b, params).value)
  {
    if a != [] {
      var p, t := a[0], a[1..];
      assert a == [p] + t;
      assert a + b == [p] + (t + b);
      SubstituteCons(p, t, params);
      SubstituteCons(p, t + b, params);
      SubstituteConcat(t, b, params);
      FillAppend(p, params, Substitute(t, params).value, Substitute(b, params).value);
    } else {
      assert a + b == b;
      assert Substitute(a, params).value == "";
      assert "" + Substitute(b, params).value == Substitute(b, params).value;
    }
  }

  lemma SubstituteCons(p: Piece, t: seq<Piece>, params: map<string, string>)
    ensures Substitute([p] + t, params) == FillPiece(p, params, Substitute(t, params))
  {
    assert ([p] + t)[0] == p && ([p] + t)[1..] == t;
  }

  /** Filling a piece in front of u + v is filling it in front of u, then
      appending v. */
  lemma FillAppend(p: Piece, params: map<string, string>, u: string, v: string)
    requires FillPiece(p, params, Some(u)).Some?
    ensures FillPiece(p, params, Some(u + v)) == Some(FillPiece(p, params, Some(u)).value + v)
  {
    match p
    case Lit(c) =>
      Regroup([c], u, v);
    case Field(n) =>
      Regroup(params[n], u, v);
  }

  /** Concatenation regroups freely. */
  lemma Regroup(a: string, b: string, c: string)
    ensures a + (b + c) == a + b + c
  {
  }
}

/**
 * Event construction (src/sensu/snmp/event.py): a configured event template is
 * a nested value of strings, lists, mappings and other scalars, and rendering it
 * replaces every `{token}` placeholder in every string, keys included, by the
 * token's entry in a substitution map, in the manner of Python's `str.format`
 * called with the map as keyword arguments.
 */
module Event {
  import opened Wrappers

  /**
   * A template or rendered event value. A mapping is the sequence of its
   * entries in the order Python iterates it; Python 2 dictionaries iterate in
   * hash order, which the model does not compute, so the sequence stands for
   * whichever order that is.
   */
  datatype Value =
    | Str(s: string)
    | Int(i: int)
    | Bool(b: bool)
    | Null
    | List(items: seq<Value>)
    | Dict(entries: seq<Entry>)

  datatype Entry = Entry(key: Value, val: Value)

  /** The ways rendering or event construction fails (Python raises). */
  datatype TemplateError =
    | MissingKey(token: string)     // KeyError: the placeholder names an absent token
    | PositionalField(name: string) // IndexError: `{}` or `{0}`, and no positional argument is given
    | UnsupportedField(name: string)// a field with `.`, `[`, `!` or `:` after its name: outside this model
    | UnmatchedOpen                 // ValueError: a `{` with no closing `}`
    | UnmatchedClose                // ValueError: a single `}`
    | BraceInField                  // a `{` inside a field name: outside this model
    | NotAMapping                   // `dict(event)` of a template that is no mapping

  // ---------------------------------------------------------------------------
  // Mappings as entry sequences, in iteration order
  // ---------------------------------------------------------------------------

  function KeysOf(es: seq<Entry>): set<Value>
  {
    set e | e in es :: e.key
  }

  predicate UniqueKeys(es: seq<Entry>)
  {
    forall i, j :: 0 <= i < j < |es| ==> es[i].key != es[j].key
  }

  /** The head of a mapping with distinct keys is keyed apart from its tail. */
  lemma UniqueTail(es: seq<Entry>)
    requires UniqueKeys(es) && es != []
    ensures UniqueKeys(es[1..]) && es[0].key !in KeysOf(es[1..])
    ensures KeysOf(es) == {es[0].key} + KeysOf(es[1..])
  {
    assert es == [es[0]] + es[1..];
    forall x | x in es[1..] ensures x.key != es[0].key {
      var i :| 0 <= i < |es[1..]| && es[1..][i] == x;
      assert es[i + 1] == x;
    }
  }

  /** Prepending a binding whose key is new keeps the keys distinct. */
  lemma UniqueCons(x: Entry, rest: seq<Entry>)
    requires UniqueKeys(rest) && x.key !in KeysOf(rest)
    ensures UniqueKeys([x] + rest) && KeysOf([x] + rest) == {x.key} + KeysOf(rest)
  {
    var r := [x] + rest;
    forall i, j | 0 <= i < j < |r| ensures r[i].key != r[j].key {
      assert r[j] == rest[j - 1];
      if i > 0 { assert r[i] == rest[i - 1]; } else { assert r[j] in rest; }
    }
  }

  /** `r` is `es` with every binding of `e.key` replaced by `e`, in place. */
  predicate ReplacedIn(es: seq<Entry>, e: Entry, r: seq<Entry>)
  {
    |r| == |es| && forall i :: 0 <= i < |es| ==> r[i] == (if es[i].key == e.key then e else es[i])
  }

  /** The recursive step of `Insert`: an insertion into the tail, behind a head keyed apart. */
  lemma InsertCons(es: seq<Entry>, e: Entry, rest: seq<Entry>)
    requires UniqueKeys(es) && es != [] && es[0].key != e.key
    requires UniqueKeys(rest) && KeysOf(rest) == KeysOf(es[1..]) + {e.key} && |rest| <= |es[1..]| + 1 && e in rest
    requires forall x :: x in rest ==> x == e || (x in es[1..] && x.key != e.key)
    requires e.key !in KeysOf(es[1..]) ==> rest == es[1..] + [e]
    ensures UniqueKeys([es[0]] + rest) && KeysOf([es[0]] + rest) == KeysOf(es) + {e.key}
    ensures e in [es[0]] + rest
    ensures forall x :: x in [es[0]] + rest ==> x == e || (x in es && x.key != e.key)
    ensures e.key !in KeysOf(es) ==> [es[0]] + rest == es + [e]
  {
    UniqueTail(es);
    UniqueCons(es[0], rest);
    assert es == [es[0]] + es[1..];
    if e.key !in KeysOf(es) {
      assert [es[0]] + (es[1..] + [e]) == es + [e];
    }
  }

  /** `d[e.key] = e.val`: overwrite the value of a present key, or add a new binding (placed last in the model's order). */
  function Insert(es: seq<Entry>, e: Entry): (r: seq<Entry>)
    requires UniqueKeys(es)
    ensures UniqueKeys(r)
    ensures KeysOf(r) == KeysOf(es) + {e.key}
    ensures |r| <= |es| + 1
    ensures e in r
    ensures forall x :: x in r ==> x == e || (x in es && x.key != e.key)
    ensures e.key !in KeysOf(es) ==> r == es + [e]
  {
    if es == [] then [e]
    else
      UniqueTail(es);
      if es[0].key == e.key then
        UniqueCons(e, es[1..]);
        [e] + es[1..]
      else
        var rest := Insert(es[1..], e);
        InsertCons(es, e, rest);
        [es[0]] + rest
  }

  /** Inserting a key that is already bound replaces that binding where it stands. */
  lemma {:induction false} InsertReplaces(es: seq<Entry>, e: Entry)
    requires UniqueKeys(es) && e.key in KeysOf(es)
    ensures ReplacedIn(es, e, Insert(es, e))
  {
    UniqueTail(es);
    var r := Insert(es, e);
    if es[0].key == e.key {
      forall i | 0 <= i < |es| ensures r[i] == (if es[i].key == e.key then e else es[i]) {
        if i > 0 { assert r[i] == es[1..][i - 1] == es[i]; }
      }
    } else {
      InsertReplaces(es[1..], e);
      var rest := Insert(es[1..], e);
      assert r == [es[0]] + rest;
      forall i | 0 <= i < |es| ensures r[i] == (if es[i].key == e.key then e else es[i]) {
        if i > 0 { assert r[i] == rest[i - 1] && es[1..][i - 1] == es[i]; }
      }
    }
  }

  /** `x` is the binding of `ps` that no later binding of the same key overrides. */
  ghost predicate LastBinding(ps: seq<Entry>, x: Entry)
  {
    exists i :: 0 <= i < |ps| && ps[i] == x && forall j :: i < j < |ps| ==> ps[j].key != x.key
  }

  lemma LastBindingExtend(ps: seq<Entry>, e: Entry, x: Entry)
    requires LastBinding(ps, x) && x.key != e.key
    ensures LastBinding(ps + [e], x)
  {
    var i :| 0 <= i < |ps| && ps[i] == x && forall j :: i < j < |ps| ==> ps[j].key != x.key;
    var qs := ps + [e];
    assert qs[i] == x;
    assert forall j :: i < j < |qs| ==> qs[j].key != x.key by {
      forall j | i < j < |qs| ensures qs[j].key != x.key {
        if j < |ps| { assert qs[j] == ps[j]; }
      }
    }
  }

  /** Python's `dict(pairs)`: pairs are stored in turn, so for each key the last pair wins. */
  function FromPairs(ps: seq<Entry>): (r: seq<Entry>)
    ensures UniqueKeys(r)
    ensures KeysOf(r) == KeysOf(ps)
    ensures |r| <= |ps|
    ensures forall x :: x in r ==> LastBinding(ps, x)
    decreases |ps|
  {
    if ps == [] then []
    else
      var init, last := ps[..|ps| - 1], ps[|ps| - 1];
      assert ps == init + [last];
      var acc := FromPairs(init);
      var r := Insert(acc, last);
      assert KeysOf(ps) == KeysOf(init) + {last.key};
      assert LastBinding(ps, last) by {
        assert ps[|ps| - 1] == last;
      }
      assert forall x :: x in r ==> LastBinding(ps, x) by {
        forall x | x in r ensures LastBinding(ps, x) {
          if x != last { LastBindingExtend(init, last, x); }
        }
      }
      r
  }

  // ---------------------------------------------------------------------------
  // str.format restricted to named placeholders
  // ---------------------------------------------------------------------------

  /** Characters that end a field name. */
  predicate IsFieldEnd(c: char)
  {
    c == '{' || c == '}' || c == '.' || c == '[' || c == '!' || c == ':'
  }

  /** Length of the longest prefix of `s` that can be a field name. */
  function NameLength(s: string): (n: nat)
    ensures n <= |s|
    ensures forall i :: 0 <= i < n ==> !IsFieldEnd(s[i])
    ensures n < |s| ==> IsFieldEnd(s[n])
  {
    if s == [] || IsFieldEnd(s[0]) then 0 else 1 + NameLength(s[1..])
  }

  /** A field name Python reads as a positional index (auto-numbered when empty). */
  predicate IsPositional(name: string)
  {
    forall i :: 0 <= i < |name| ==> '0' <= name[i] <= '9'
  }

  function Prefix(p: string, r: Result<string, TemplateError>): Result<string, TemplateError>
  {
    if r.Ok? then Ok(p + r.value) else r
  }

  /**
   * `s.format(**subs)`: the text is copied, `{{` and `}}` stand for single
   * braces and `{name}` is replaced by `subs[name]`; the first problem met
   * from left to right is the error.
   */
  function Format(s: string, subs: map<string, string>): (r: Result<string, TemplateError>)
    ensures r.Err? ==> !r.error.NotAMapping?
    ensures r.Err? && r.error.MissingKey? ==> r.error.token !in subs
    decreases |s|
  {
    if s == [] then Ok("")
    else if s[0] == '{' && |s| > 1 && s[1] == '{' then Prefix("{", Format(s[2..], subs))
    else if s[0] == '{' then
      var n := NameLength(s[1..]);
      var name := s[1..n + 1];
      if n + 1 == |s| then Err(UnmatchedOpen)
      else if s[n + 1] == '}' then
        if IsPositional(name) then Err(PositionalField(name))
        else if name in subs then Prefix(subs[name], Format(s[n + 2..], subs))
        else Err(MissingKey(name))
      else if s[n + 1] == '{' then Err(BraceInField)
      else Err(UnsupportedField(name))
    else if s[0] == '}' && |s| > 1 && s[1] == '}' then Prefix("}", Format(s[2..], subs))
    else if s[0] == '}' then Err(UnmatchedClose)
    else Prefix([s[0]], Format(s[1..], subs))
  }

  /** A format string seen as a sequence of literal characters and placeholders. */
  datatype Piece = Text(c: char) | Field(name: string)

  /** A placeholder name `Format` looks up in the substitution map. */
  predicate IsPlainName(name: string)
  {
    !IsPositional(name) && forall i :: 0 <= i < |name| ==> !IsFieldEnd(name[i])
  }

  predicate PlainPieces(ps: seq<Piece>)
  {
    forall i :: 0 <= i < |ps| && ps[i].Field? ==> IsPlainName(ps[i].name)
  }

  /** The format string that spells the pieces, doubling literal braces. */
  function Unparse(ps: seq<Piece>): string
  {
    if ps == [] then ""
    else
      var head :=
        match ps[0]
        case Text(c) => if c == '{' then "{{" else if c == '}' then "}}" else [c]
        case Field(name) => "{" + name + "}";
      head + Unparse(ps[1..])
  }

  /** Reference semantics: literal text copied, each placeholder looked up, the first absent token fails. */
  function Fill(ps: seq<Piece>, subs: map<string, string>): (r: Result<string, TemplateError>)
    ensures r.Ok? <==> forall i :: 0 <= i < |ps| && ps[i].Field? ==> ps[i].name in subs
    ensures r.Err? ==> r.error.MissingKey? && r.error.token !in subs
  {
    if ps == [] then Ok("")
    else
      match ps[0]
      case Text(c) => Prefix([c], Fill(ps[1..], subs))
      case Field(name) =>
        if name in subs then Prefix(subs[name], Fill(ps[1..], subs)) else Err(MissingKey(name))
  }

  lemma PlainCons(p: Piece, ps: seq<Piece>)
    requires PlainPieces(ps) && (p.Field? ==> IsPlainName(p.name))
    ensures PlainPieces([p] + ps) && ([p] + ps)[1..] == ps && ([p] + ps)[0] == p
  {
    var qs := [p] + ps;
    forall i | 0 <= i < |qs| && qs[i].Field? ensures IsPlainName(qs[i].name) {
      if i > 0 { assert qs[i] == ps[i - 1]; }
    }
  }

  lemma NameLengthOfField(name: string, rest: string)
    requires forall i :: 0 <= i < |name| ==> !IsFieldEnd(name[i])
    ensures NameLength(name + "}" + rest) == |name|
  {
    var s := name + "}" + rest;
    assert IsFieldEnd(s[|name|]);
    assert forall i :: 0 <= i < |name| ==> s[i] == name[i];
  }

  /** A literal character, spelled with braces doubled, formats to itself. */
  lemma FormatText(c: char, rest: string, subs: map<string, string>)
    ensures Format(Unparse([Text(c)]) + rest, subs) == Prefix([c], Format(rest, subs))
  {
    var s := Unparse([Text(c)]) + rest;
    assert Unparse([Text(c)]) == (if c == '{' || c == '}' then [c, c] else [c]) + Unparse([]);
    if c == '{' || c == '}' {
      assert s == [c, c] + rest;
      assert s[2..] == rest;
    } else {
      assert s == [c] + rest;
      assert s[1..] == rest;
    }
  }

  /** A plain placeholder formats to its substitution, or fails on its missing name. */
  lemma FormatField(name: string, rest: string, subs: map<string, string>)
    requires IsPlainName(name)
    ensures Format(Unparse([Field(name)]) + rest, subs)
         == if name in subs then Prefix(subs[name], Format(rest, subs)) else Err(MissingKey(name))
  {
    var s := Unparse([Field(name)]) + rest;
    assert s == "{" + name + "}" + rest;
    assert s[1..] == name + "}" + rest;
    NameLengthOfField(name, rest);
    assert s[1..|name| + 1] == name;
    assert s[|name| + 1] == '}';
    assert s[|name| + 2..] == rest;
  }

  /** Rendering the spelling of pieces is the reference semantics of the pieces. */
  lemma {:induction false} FormatUnparse(ps: seq<Piece>, subs: map<string, string>)
    requires PlainPieces(ps)
    ensures Format(Unparse(ps), subs) == Fill(ps, subs)
  {
    if ps != [] {
      assert PlainPieces(ps[1..]) by {
        forall i | 0 <= i < |ps[1..]| && ps[1..][i].Field? ensures IsPlainName(ps[1..][i].name) {
          assert ps[1..][i] == ps[i + 1];
        }
      }
      FormatUnparse(ps[1..], subs);
      var rest := Unparse(ps[1..]);
      assert Unparse(ps) == Unparse([ps[0]]) + rest;
      match ps[0]
      case Text(c) => FormatText(c, rest, subs);
      case Field(name) =>
        assert IsPlainName(name) by { assert ps[0].Field?; }
        FormatField(name, rest, subs);
    }
  }

  /** A successfully formatted string that opens with a single brace opens with a plain placeholder. */
  lemma PlaceholderOk(s: string, subs: map<string, string>) returns (n: nat)
    requires Format(s, subs).Ok? && |s| > 0 && s[0] == '{' && !(|s| > 1 && s[1] == '{')
    ensures n + 1 < |s| && n == NameLength(s[1..]) && IsPlainName(s[1..n + 1]) && s[1..n + 1] in subs
    ensures Format(s, subs) == Prefix(subs[s[1..n + 1]], Format(s[n + 2..], subs))
    ensures s == "{" + s[1..n + 1] + "}" + s[n + 2..]
  {
    n := NameLength(s[1..]);
    var name := s[1..n + 1];
    assert n + 1 < |s| && s[n + 1] == '}' && !IsPositional(name) && name in subs;
    assert forall i :: 0 <= i < |name| ==> name[i] == s[1..][i];
    assert s == [s[0]] + s[1..n + 1] + [s[n + 1]] + s[n + 2..];
  }

  /** Every string that formats successfully is the spelling of literal text and plain placeholders. */
  lemma {:induction false} FormatOkIsUnparse(s: string, subs: map<string, string>)
    requires Format(s, subs).Ok?
    ensures exists ps :: PlainPieces(ps) && Unparse(ps) == s
    decreases |s|
  {
    if s == [] {
      assert PlainPieces([]) && Unparse([]) == s;
    } else if s[0] == '{' && |s| > 1 && s[1] == '{' {
      FormatOkIsUnparse(s[2..], subs);
      var ps :| PlainPieces(ps) && Unparse(ps) == s[2..];
      PlainCons(Text('{'), ps);
      assert Unparse([Text('{')] + ps) == "{{" + s[2..] == s;
    } else if s[0] == '}' && |s| > 1 && s[1] == '}' {
      FormatOkIsUnparse(s[2..], subs);
      var ps :| PlainPieces(ps) && Unparse(ps) == s[2..];
      PlainCons(Text('}'), ps);
      assert Unparse([Text('}')] + ps) == "}}" + s[2..] == s;
    } else if s[0] == '{' {
      var n := PlaceholderOk(s, subs);
      FormatOkIsUnparse(s[n + 2..], subs);
      var ps :| PlainPieces(ps) && Unparse(ps) == s[n + 2..];
      PlainCons(Field(s[1..n + 1]), ps);
      assert Unparse([Field(s[1..n + 1])] + ps) == "{" + s[1..n + 1] + "}" + s[n + 2..];
    } else {
      assert s[0] != '{' && s[0] != '}';
      FormatOkIsUnparse(s[1..], subs);
      var ps :| PlainPieces(ps) && Unparse(ps) == s[1..];
      PlainCons(Text(s[0]), ps);
      assert Unparse([Text(s[0])] + ps) == [s[0]] + s[1..] == s;
    }
  }

  /** A string without braces formats to itself under any substitution map. */
  lemma {:induction false} FormatNoBraces(s: string, subs: map<string, string>)
    requires forall i :: 0 <= i < |s| ==> s[i] != '{' && s[i] != '}'
    ensures Format(s, subs) == Ok(s)
  {
    if s != [] {
      FormatNoBraces(s[1..], subs);
      assert [s[0]] + s[1..] == s;
    }
  }

  // ---------------------------------------------------------------------------
  // _apply_substitutions
  // ---------------------------------------------------------------------------

  /** `_apply_substitutions`: strings are formatted, lists and mappings recursed into, other scalars kept. */
  function Render(t: Value, subs: map<string, string>): (r: Result<Value, TemplateError>)
    ensures t.Str? && r.Ok? ==> r.value.Str? && Format(t.s, subs) == Ok(r.value.s)
    ensures t.List? && r.Ok? ==> r.value.List? && |r.value.items| == |t.items|
    ensures t.Dict? && r.Ok? ==> r.value.Dict? && UniqueKeys(r.value.entries) && |r.value.entries| <= |t.entries|
    ensures (t.Int? || t.Bool? || t.Null?) ==> r == Ok(t)
    ensures r.Err? ==> !r.error.NotAMapping?
    ensures r.Err? && r.error.MissingKey? ==> r.error.token !in subs
    decreases t
  {
    match t
    case Str(s) =>
      var f := Format(s, subs);
      if f.Ok? then Ok(Str(f.value)) else Err(f.error)
    case List(items) =>
      var rs := RenderList(items, subs);
      if rs.Ok? then Ok(List(rs.value)) else Err(rs.error)
    case Dict(entries) =>
      var rs := RenderPairs(entries, subs);
      if rs.Ok? then Ok(Dict(FromPairs(rs.value))) else Err(rs.error)
    case _ => Ok(t)
  }

  /** The list comprehension: element-wise, in order, the first failure propagates. */
  function RenderList(items: seq<Value>, subs: map<string, string>): (r: Result<seq<Value>, TemplateError>)
    ensures r.Ok? <==> forall i :: 0 <= i < |items| ==> Render(items[i], subs).Ok?
    ensures r.Ok? ==> |r.value| == |items| && forall i :: 0 <= i < |items| ==> Render(items[i], subs) == Ok(r.value[i])
    ensures r.Err? ==> !r.error.NotAMapping?
    ensures r.Err? && r.error.MissingKey? ==> r.error.token !in subs
    decreases items
  {
    if items == [] then Ok([])
    else
      var h := Render(items[0], subs);
      if h.Err? then Err(h.error)
      else
        var t := RenderList(items[1..], subs);
        assert forall j :: 0 <= j < |items| - 1 ==> items[1..][j] == items[j + 1];
        if t.Err? then Err(t.error) else Ok([h.value] + t.value)
  }

  /** Both halves of the template entry render. */
  predicate RendersOk(e: Entry, subs: map<string, string>)
    decreases e
  {
    Render(e.key, subs).Ok? && Render(e.val, subs).Ok?
  }

  /** `out` is the rendering of the template entry `e`, key and value. */
  predicate RendersTo(e: Entry, out: Entry, subs: map<string, string>)
    decreases e
  {
    Render(e.key, subs) == Ok(out.key) && Render(e.val, subs) == Ok(out.val)
  }

  /** The pairs `(render(key), render(value))`, in the template's iteration order, the first failure propagates. */
  function RenderPairs(es: seq<Entry>, subs: map<string, string>): (r: Result<seq<Entry>, TemplateError>)
    ensures r.Ok? <==> forall i :: 0 <= i < |es| ==> RendersOk(es[i], subs)
    ensures r.Ok? ==> |r.value| == |es| && forall i :: 0 <= i < |es| ==> RendersTo(es[i], r.value[i], subs)
    ensures r.Err? ==> !r.error.NotAMapping?
    ensures r.Err? && r.error.MissingKey? ==> r.error.token !in subs
    decreases es
  {
    if es == [] then Ok([])
    else
      assert es[0].key < es[0] && es[0].val < es[0];
      var k := Render(es[0].key, subs);
      if k.Err? then Err(k.error)
      else
        var v := Render(es[0].val, subs);
        if v.Err? then Err(v.error)
        else
          var t := RenderPairs(es[1..], subs);
          assert forall j :: 0 <= j < |es| - 1 ==> es[1..][j] == es[j + 1];
          if t.Err? then Err(t.error)
          else Ok([Entry(k.value, v.value)] + t.value)
  }

  // ---------------------------------------------------------------------------
  // Properties of rendering
  // ---------------------------------------------------------------------------

  /** `x` renders from template entry `es[i]`, and no later template key renders to `x`'s key. */
  ghost predicate LastRendering(es: seq<Entry>, i: int, x: Entry, subs: map<string, string>)
  {
    && 0 <= i < |es|
    && RendersTo(es[i], x, subs)
    && forall j :: i < j < |es| ==> Render(es[j].key, subs) != Ok(x.key)
  }

  /**
   * A rendered mapping holds, for each of its entries, the rendering of one
   * template entry (key and value) that no later template key rendering to the
   * same key overrides; and every rendered template key is present.
   */
  lemma RenderDict(es: seq<Entry>, subs: map<string, string>)
    requires RenderPairs(es, subs).Ok?
    ensures forall x :: x in Render(Dict(es), subs).value.entries ==> exists i :: LastRendering(es, i, x, subs)
    ensures forall i :: 0 <= i < |es| ==> Render(es[i].key, subs).value in KeysOf(Render(Dict(es), subs).value.entries)
  {
    var rs := RenderPairs(es, subs).value;
    var out := FromPairs(rs);
    assert Render(Dict(es), subs).value.entries == out;
    forall x | x in out ensures exists i :: LastRendering(es, i, x, subs) {
      assert LastBinding(rs, x);
      var i :| 0 <= i < |rs| && rs[i] == x && forall j :: i < j < |rs| ==> rs[j].key != x.key;
      assert RendersTo(es[i], rs[i], subs);
      forall j | i < j < |es| ensures Render(es[j].key, subs) != Ok(x.key) {
        assert RendersTo(es[j], rs[j], subs);
      }
      assert LastRendering(es, i, x, subs);
    }
    forall i | 0 <= i < |es| ensures Render(es[i].key, subs).value in KeysOf(out) {
      assert RendersTo(es[i], rs[i], subs);
      assert rs[i] in rs;
    }
  }

  predicate NoBraces(s: string)
  {
    forall i :: 0 <= i < |s| ==> s[i] != '{' && s[i] != '}'
  }

  /** A template with no `{` or `}` anywhere, whose mappings have unique keys. */
  predicate Plain(t: Value)
    decreases t
  {
    match t
    case Str(s) => NoBraces(s)
    case List(items) => forall i :: 0 <= i < |items| ==> Plain(items[i])
    case Dict(es) => UniqueKeys(es) && forall i :: 0 <= i < |es| ==> PlainEntry(es[i])
    case _ => true
  }

  predicate PlainEntry(e: Entry)
    decreases e
  {
    Plain(e.key) && Plain(e.val)
  }

  /** `dict()` of pairs with distinct keys keeps them all, in the model's order. */
  lemma {:induction false} FromPairsUnique(ps: seq<Entry>)
    requires UniqueKeys(ps)
    ensures FromPairs(ps) == ps
    decreases |ps|
  {
    if ps != [] {
      var init, last := ps[..|ps| - 1], ps[|ps| - 1];
      assert UniqueKeys(init);
      FromPairsUnique(init);
      assert last.key !in KeysOf(init) by {
        forall x | x in init ensures x.key != last.key {
          var i :| 0 <= i < |init| && init[i] == x;
          assert ps[i] == x;
        }
      }
      assert init + [last] == ps;
    }
  }

  /** A template with no `{` or `}` anywhere (and distinct dict keys) renders to itself under any substitution map. */
  lemma {:induction false} RenderPlain(t: Value, subs: map<string, string>)
    requires Plain(t)
    ensures Render(t, subs) == Ok(t)
    decreases t
  {
    match t
    case Str(s) => FormatNoBraces(s, subs);
    case List(items) => RenderListPlain(items, subs);
    case Dict(es) =>
      RenderPairsPlain(es, subs);
      FromPairsUnique(es);
    case _ =>
  }

  lemma {:induction false} RenderListPlain(items: seq<Value>, subs: map<string, string>)
    requires forall i :: 0 <= i < |items| ==> Plain(items[i])
    ensures RenderList(items, subs) == Ok(items)
    decreases items
  {
    if items != [] {
      RenderPlain(items[0], subs);
      RenderListPlain(items[1..], subs);
      assert [items[0]] + items[1..] == items;
    }
  }

  lemma {:induction false} RenderPairsPlain(es: seq<Entry>, subs: map<string, string>)
    requires forall i :: 0 <= i < |es| ==> PlainEntry(es[i])
    ensures RenderPairs(es, subs) == Ok(es)
    decreases es
  {
    if es != [] {
      assert es[0].key < es[0] && es[0].val < es[0];
      assert PlainEntry(es[0]);
      RenderPlain(es[0].key, subs);
      RenderPlain(es[0].val, subs);
      assert forall j :: 0 <= j < |es| - 1 ==> es[1..][j] == es[j + 1];
      RenderPairsPlain(es[1..], subs);
      assert RenderPairs(es, subs) == Ok([Entry(es[0].key, es[0].val)] + es[1..]);
      assert [Entry(es[0].key, es[0].val)] + es[1..] == es;
    }
  }

  /** The string `s` occurs in the template, as a key or a value, at any depth. */
  predicate Occurs(s: string, t: Value)
    decreases t
  {
    match t
    case Str(x) => x == s
    case List(items) => exists i :: 0 <= i < |items| && Occurs(s, items[i])
    case Dict(es) => exists i :: 0 <= i < |es| && OccursIn(s, es[i])
    case _ => false
  }

  predicate OccursIn(s: string, e: Entry)
    decreases e
  {
    Occurs(s, e.key) || Occurs(s, e.val)
  }

  /** A string of the template that cannot be formatted makes the whole rendering fail. */
  lemma {:induction false} RenderFailsOnString(s: string, t: Value, subs: map<string, string>)
    requires Occurs(s, t) && Format(s, subs).Err?
    ensures Render(t, subs).Err?
    decreases t
  {
    match t
    case Str(x) =>
    case List(items) =>
      var i :| 0 <= i < |items| && Occurs(s, items[i]);
      RenderFailsOnString(s, items[i], subs);
    case Dict(es) =>
      var i :| 0 <= i < |es| && OccursIn(s, es[i]);
      assert es[i].key < es[i] && es[i].val < es[i];
      if Occurs(s, es[i].key) {
        RenderFailsOnString(s, es[i].key, subs);
      } else {
        RenderFailsOnString(s, es[i].val, subs);
      }
      assert !RendersOk(es[i], subs);
  }

  // ---------------------------------------------------------------------------
  // TrapEvent
  // ---------------------------------------------------------------------------

  /** A constructed event: the substitutions it was built with and the rendered mapping. */
  datatype TrapEvent = TrapEvent(substitutions: map<string, string>, event: Value)

  /** Every item is a two-element list, the only pair form the model accepts. */
  predicate AllPairs(items: seq<Value>)
  {
    forall i :: 0 <= i < |items| ==> items[i].List? && |items[i].items| == 2
  }

  /** The pairs of `items` as entries, one per item and in the same order. */
  function PairEntries(items: seq<Value>): (es: seq<Entry>)
    requires AllPairs(items)
    ensures |es| == |items|
    ensures forall i :: 0 <= i < |items| ==> es[i] == Entry(items[i].items[0], items[i].items[1])
  {
    seq(|items|, i requires 0 <= i < |items| && items[i].List? && |items[i].items| == 2 =>
      Entry(items[i].items[0], items[i].items[1]))
  }

  /** Python's `dict(v)` for a mapping, or a list of two-element lists; anything else is refused. */
  function ToDict(v: Value): (r: Result<seq<Entry>, TemplateError>)
    ensures r.Ok? ==> UniqueKeys(r.value)
    ensures v.Dict? && UniqueKeys(v.entries) ==> r == Ok(v.entries)
    ensures v.List? ==> (r.Ok? <==> AllPairs(v.items))
    ensures v.List? && r.Ok? ==> r.value == FromPairs(PairEntries(v.items))
    ensures !(v.Dict? || v.List?) ==> r == Err(NotAMapping)
  {
    match v
    case Dict(es) =>
      if UniqueKeys(es) then FromPairsUnique(es); Ok(FromPairs(es)) else Ok(FromPairs(es))
    case List(items) =>
      if AllPairs(items) then Ok(FromPairs(PairEntries(items))) else Err(NotAMapping)
    case _ => Err(NotAMapping)
  }

  /** `TrapEvent(event, substitutions)`: copy the template to a dict, then render it. */
  function NewTrapEvent(template: Value, subs: map<string, string>): (r: Result<TrapEvent, TemplateError>)
    ensures r.Ok? ==> r.value.substitutions == subs && r.value.event.Dict?
    ensures r.Err? && r.error.MissingKey? ==> r.error.token !in subs
    ensures template.Dict? && UniqueKeys(template.entries) ==>
      && (r.Ok? <==> Render(template, subs).Ok?)
      && (r.Ok? ==> Render(template, subs) == Ok(r.value.event))
  {
    var d := ToDict(template);
    if d.Err? then Err(d.error)
    else
      var e := Render(Dict(d.value), subs);
      if e.Ok? then Ok(TrapEvent(subs, e.value)) else Err(e.error)
  }

  /** A mapping template with no `{` or `}` anywhere (and distinct dict keys) becomes an event equal to the template. */
  lemma TrapEventOfPlainTemplate(template: Value, subs: map<string, string>)
    requires template.Dict? && Plain(template)
    ensures NewTrapEvent(template, subs) == Ok(TrapEvent(subs, template))
  {
    RenderPlain(template, subs);
  }

  /** A mapping template with an unformattable string, key or value, at any depth, builds no event. */
  lemma MissingTokenNoEvent(template: Value, s: string, subs: map<string, string>)
    requires template.Dict? && UniqueKeys(template.entries)
    requires Occurs(s, template) && Format(s, subs).Err?
    ensures NewTrapEvent(template, subs).Err?
  {
    RenderFailsOnString(s, template, subs);
  }
}

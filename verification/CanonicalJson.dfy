/** The browser's canonical JSON printer: object keys sorted at every depth, so that the text
    hashed and MACed does not depend on the order in which a store returns the keys. */
module CanonicalJson {
  import opened Decimals

  datatype Field = Field(key: string, value: Json)

  /** A number is carried as the text that JSON.stringify prints for it. */
  datatype Json =
    | Null
    | Bool(b: bool)
    | Number(text: string)
    | String(s: string)
    | Array(elems: seq<Json>)
    | Object(fields: seq<Field>)

  predicate NumberChar(c: char) {
    IsDigit(c) || c in "+-.e"
  }

  predicate NumberText(t: string) {
    0 < |t| && (IsDigit(t[0]) || t[0] == '-') && forall i :: 0 <= i < |t| ==> NumberChar(t[i])
  }

  predicate UniqueKeys(fs: seq<Field>) {
    forall i, j :: 0 <= i < j < |fs| ==> fs[i].key != fs[j].key
  }

  /** A JavaScript value: object keys are unique, numbers print as number text. */
  predicate WellFormed(v: Json) {
    match v
    case Number(t) => NumberText(t)
    case Array(es) => forall i :: 0 <= i < |es| ==> WellFormed(es[i])
    case Object(fs) => UniqueKeys(fs) && forall i :: 0 <= i < |fs| ==> WellFormed(fs[i].value)
    case _ => true
  }

  function KeySet(fs: seq<Field>): set<string> {
    set i | 0 <= i < |fs| :: fs[i].key
  }

  /** Equality of values when the order of an object's keys does not matter, at any depth. */
  ghost predicate Same(v: Json, w: Json)
    decreases v
  {
    match v
    case Array(es) =>
      w.Array? && |es| == |w.elems| && forall i :: 0 <= i < |es| ==> Same(es[i], w.elems[i])
    case Object(fs) =>
      && w.Object?
      && KeySet(fs) == KeySet(w.fields)
      && forall i, j :: 0 <= i < |fs| && 0 <= j < |w.fields| && fs[i].key == w.fields[j].key
                        ==> Same(fs[i].value, w.fields[j].value)
    case _ => v == w
  }

  // ----- the printer -----

  function Hex(d: nat): char
    requires d < 16
  {
    if d < 10 then '0' + d as char else 'a' + (d - 10) as char
  }

  function Escape(c: char): string {
    if c == '\"' then "\\\""
    else if c == '\\' then "\\\\"
    else if ' ' <= c then [c]
    else if c as int == 8 then "\\b"
    else if c as int == 9 then "\\t"
    else if c as int == 10 then "\\n"
    else if c as int == 12 then "\\f"
    else if c as int == 13 then "\\r"
    else "\\u00" + [Hex(c as int / 16), Hex(c as int % 16)]
  }

  function EscapeAll(s: string): string {
    if s == "" then "" else Escape(s[0]) + EscapeAll(s[1..])
  }

  function Quote(s: string): string {
    "\"" + EscapeAll(s) + "\""
  }

  predicate Before(a: string, b: string) {
    if b == "" then false
    else if a == "" then true
    else a[0] < b[0] || (a[0] == b[0] && Before(a[1..], b[1..]))
  }

  function InsertField(f: Field, fs: seq<Field>): seq<Field> {
    if fs == [] then [f]
    else if Before(f.key, fs[0].key) then [f] + fs
    else [fs[0]] + InsertField(f, fs[1..])
  }

  function SortFields(fs: seq<Field>): seq<Field> {
    if fs == [] then [] else InsertField(fs[0], SortFields(fs[1..]))
  }

  /** The value with the keys of every object in sorted order. */
  function Canon(v: Json): Json {
    match v
    case Array(es) => Array(seq(|es|, i requires 0 <= i < |es| => Canon(es[i])))
    case Object(fs) => Object(SortFields(CanonFields(fs)))
    case _ => v
  }

  function CanonFields(fs: seq<Field>): (gs: seq<Field>)
    ensures |gs| == |fs|
    ensures forall i :: 0 <= i < |fs| ==> gs[i] == Field(fs[i].key, Canon(fs[i].value))
  {
    seq(|fs|, i requires 0 <= i < |fs| => Field(fs[i].key, Canon(fs[i].value)))
  }

  function Render(v: Json): string {
    match v
    case Null => "null"
    case Bool(b) => if b then "true" else "false"
    case Number(t) => t
    case String(s) => Quote(s)
    case Array(es) => "[" + RenderElems(es) + "]"
    case Object(fs) => "{" + RenderFields(fs) + "}"
  }

  function RenderElems(es: seq<Json>): string {
    if es == [] then "" else Render(es[0]) + RenderMoreElems(es[1..])
  }

  function RenderMoreElems(es: seq<Json>): string {
    if es == [] then "" else "," + Render(es[0]) + RenderMoreElems(es[1..])
  }

  function RenderField(f: Field): string {
    Quote(f.key) + ":" + Render(f.value)
  }

  function RenderFields(fs: seq<Field>): string {
    if fs == [] then "" else RenderField(fs[0]) + RenderMoreFields(fs[1..])
  }

  function RenderMoreFields(fs: seq<Field>): string {
    if fs == [] then "" else "," + RenderField(fs[0]) + RenderMoreFields(fs[1..])
  }

  function StableJson(v: Json): string {
    Render(Canon(v))
  }

  // ----- printing is uniquely readable -----

  lemma {:induction false} EscapeReadable(c: char, d: char, x: string, y: string)
    requires Escape(c) + x == Escape(d) + y
    ensures c == d && x == y
  {
    var s, t := Escape(c) + x, Escape(d) + y;
    assert s[0] == Escape(c)[0] && t[0] == Escape(d)[0];
    if s[0] == '\\' {
      assert s[1] == Escape(c)[1] && t[1] == Escape(d)[1];
      if s[1] == 'u' {
        assert s[4] == Escape(c)[4] && t[4] == Escape(d)[4];
        assert s[5] == Escape(c)[5] && t[5] == Escape(d)[5];
      }
    }
    assert |Escape(c)| == |Escape(d)|;
    assert x == s[|Escape(c)|..] && y == t[|Escape(d)|..];
  }

  lemma {:induction false} EscapeFirstChar(a: string)
    ensures a == "" <==> EscapeAll(a) == ""
    ensures a != "" ==> EscapeAll(a)[0] != '\"'
  {
    assert a != "" ==> EscapeAll(a)[0] == Escape(a[0])[0];
  }

  lemma EscapeFirst(a: string, r: string)
    requires a != ""
    ensures EscapeAll(a) + "\"" + r == Escape(a[0]) + (EscapeAll(a[1..]) + "\"" + r)
  {
    assert EscapeAll(a) == Escape(a[0]) + EscapeAll(a[1..]);
  }

  lemma QuoteEnds(a: string, r: string)
    ensures a == "" <==> (EscapeAll(a) + "\"" + r)[0] == '\"'
    ensures a == "" ==> (EscapeAll(a) + "\"" + r)[1..] == r
  {
    EscapeFirstChar(a);
  }

  lemma {:induction false} QuoteTailReadable(a: string, b: string, r: string, s: string)
    requires EscapeAll(a) + "\"" + r == EscapeAll(b) + "\"" + s
    ensures a == b && r == s
  {
    var x, y := EscapeAll(a) + "\"" + r, EscapeAll(b) + "\"" + s;
    QuoteEnds(a, r);
    QuoteEnds(b, s);
    if a != "" {
      var xt, yt := EscapeAll(a[1..]) + "\"" + r, EscapeAll(b[1..]) + "\"" + s;
      EscapeFirst(a, r);
      EscapeFirst(b, s);
      EscapeReadable(a[0], b[0], xt, yt);
      QuoteTailReadable(a[1..], b[1..], r, s);
      assert a == [a[0]] + a[1..] && b == [b[0]] + b[1..];
    }
  }

  lemma {:induction false} QuoteReadable(a: string, b: string, r: string, s: string)
    requires Quote(a) + r == Quote(b) + s
    ensures a == b && r == s
  {
    var x, y := Quote(a) + r, Quote(b) + s;
    assert x[1..] == EscapeAll(a) + "\"" + r && y[1..] == EscapeAll(b) + "\"" + s;
    QuoteTailReadable(a, b, r, s);
  }

  /** What may follow a value: nothing, a comma or a closing bracket. */
  predicate Stop(r: string) {
    r == "" || r[0] in ",]}"
  }

  /** How many characters of a text a number reader would take. */
  function NumberSpan(s: string): nat {
    if s == "" || !NumberChar(s[0]) then 0 else 1 + NumberSpan(s[1..])
  }

  lemma {:induction false} NumberSpanIsText(t: string, r: string)
    requires (forall i :: 0 <= i < |t| ==> NumberChar(t[i])) && Stop(r)
    ensures NumberSpan(t + r) == |t|
  {
    if t == "" {
      assert t + r == r;
    } else {
      assert (t + r)[1..] == t[1..] + r;
      NumberSpanIsText(t[1..], r);
    }
  }

  lemma {:induction false} NumberReadable(t: string, u: string, r: string, s: string)
    requires NumberText(t) && NumberText(u) && Stop(r) && Stop(s) && t + r == u + s
    ensures t == u && r == s
  {
    NumberSpanIsText(t, r);
    NumberSpanIsText(u, s);
    var x, y := t + r, u + s;
    assert t == x[..|t|] && u == y[..|u|] && r == x[|t|..] && s == y[|u|..];
  }

  function FirstChar(v: Json): char {
    match v
    case Null => 'n'
    case Bool(b) => if b then 't' else 'f'
    case Number(t) => if t == "" then '0' else t[0]
    case String(_) => '\"'
    case Array(_) => '['
    case Object(_) => '{'
  }

  lemma {:induction false} StartsWithFirstChar(v: Json, r: string)
    requires WellFormed(v)
    ensures Render(v) != "" && Render(v)[0] == (Render(v) + r)[0] == FirstChar(v)
    ensures FirstChar(v) !in ",]}"
  {}

  lemma Bracketed(o: string, a: string, c: string, r: string)
    requires |o| == 1
    ensures (o + a + c + r)[1..] == a + (c + r)
  {}

  lemma Associative(a: string, b: string, c: string)
    ensures (a + b) + c == a + (b + c)
  {}

  lemma SameKind(v: Json, w: Json)
    requires WellFormed(v) && WellFormed(w) && FirstChar(v) == FirstChar(w)
    ensures v.Null? == w.Null? && v.Bool? == w.Bool? && v.Number? == w.Number?
    ensures v.String? == w.String? && v.Array? == w.Array? && v.Object? == w.Object?
    ensures v.Bool? ==> v == w
  {}

  lemma {:induction false} RenderReadable(v: Json, w: Json, r: string, s: string)
    requires WellFormed(v) && WellFormed(w) && Stop(r) && Stop(s)
    requires Render(v) + r == Render(w) + s
    ensures v == w && r == s
    decreases v, 1
  {
    StartsWithFirstChar(v, r);
    StartsWithFirstChar(w, s);
    SameKind(v, w);
    var x, y := Render(v) + r, Render(w) + s;
    if v.Null? || v.Bool? {
      assert v == w;
      assert r == x[|Render(v)|..] && s == y[|Render(w)|..];
    } else if v.Number? {
      NumberReadable(v.text, w.text, r, s);
    } else if v.String? {
      QuoteReadable(v.s, w.s, r, s);
    } else if v.Array? {
      Bracketed("[", RenderElems(v.elems), "]", r);
      Bracketed("[", RenderElems(w.elems), "]", s);
      ElemsReadable(v.elems, w.elems, r, s);
    } else {
      Bracketed("{", RenderFields(v.fields), "}", r);
      Bracketed("{", RenderFields(w.fields), "}", s);
      FieldsReadable(v.fields, w.fields, r, s);
    }
  }

  lemma {:induction false} ElemsFirstChar(es: seq<Json>, r: string)
    requires forall i :: 0 <= i < |es| ==> WellFormed(es[i])
    ensures (RenderElems(es) + ("]" + r))[0] == ']' <==> es == []
    ensures es != [] ==> RenderElems(es) + ("]" + r) == Render(es[0]) + (RenderMoreElems(es[1..]) + ("]" + r))
  {
    if es != [] {
      StartsWithFirstChar(es[0], "");
      Associative(Render(es[0]), RenderMoreElems(es[1..]), "]" + r);
    }
  }

  lemma {:induction false} MoreElemsFirstChar(es: seq<Json>, r: string)
    ensures (RenderMoreElems(es) + ("]" + r))[0] == if es == [] then ']' else ','
    ensures es != [] ==>
              (RenderMoreElems(es) + ("]" + r))[1..] == Render(es[0]) + (RenderMoreElems(es[1..]) + ("]" + r))
  {
    if es != [] {
      Bracketed(",", Render(es[0]), RenderMoreElems(es[1..]), "]" + r);
    }
  }

  lemma {:induction false} ElemsReadable(es: seq<Json>, fs: seq<Json>, r: string, s: string)
    requires forall i :: 0 <= i < |es| ==> WellFormed(es[i])
    requires forall i :: 0 <= i < |fs| ==> WellFormed(fs[i])
    requires RenderElems(es) + ("]" + r) == RenderElems(fs) + ("]" + s)
    ensures es == fs && r == s
    decreases es, 2
  {
    ElemsFirstChar(es, r);
    ElemsFirstChar(fs, s);
    if es == [] {
      assert r == (RenderElems(es) + ("]" + r))[1..] && s == (RenderElems(fs) + ("]" + s))[1..];
    } else {
      var xt, yt := RenderMoreElems(es[1..]) + ("]" + r), RenderMoreElems(fs[1..]) + ("]" + s);
      MoreElemsFirstChar(es[1..], r);
      MoreElemsFirstChar(fs[1..], s);
      RenderReadable(es[0], fs[0], xt, yt);
      MoreElemsReadable(es[1..], fs[1..], r, s);
      assert es == [es[0]] + es[1..] && fs == [fs[0]] + fs[1..];
    }
  }

  lemma {:induction false} MoreElemsReadable(es: seq<Json>, fs: seq<Json>, r: string, s: string)
    requires forall i :: 0 <= i < |es| ==> WellFormed(es[i])
    requires forall i :: 0 <= i < |fs| ==> WellFormed(fs[i])
    requires RenderMoreElems(es) + ("]" + r) == RenderMoreElems(fs) + ("]" + s)
    ensures es == fs && r == s
    decreases es, 2
  {
    MoreElemsFirstChar(es, r);
    MoreElemsFirstChar(fs, s);
    if es == [] {
      assert r == (RenderMoreElems(es) + ("]" + r))[1..] && s == (RenderMoreElems(fs) + ("]" + s))[1..];
    } else {
      var xt, yt := RenderMoreElems(es[1..]) + ("]" + r), RenderMoreElems(fs[1..]) + ("]" + s);
      MoreElemsFirstChar(es[1..], r);
      MoreElemsFirstChar(fs[1..], s);
      RenderReadable(es[0], fs[0], xt, yt);
      MoreElemsReadable(es[1..], fs[1..], r, s);
      assert es == [es[0]] + es[1..] && fs == [fs[0]] + fs[1..];
    }
  }

  lemma {:induction false} FieldText(f: Field, r: string)
    ensures RenderField(f) != "" && RenderField(f)[0] == '\"'
    ensures RenderField(f) + r == Quote(f.key) + (":" + (Render(f.value) + r))
  {}

  lemma {:induction false} FieldReadable(f: Field, g: Field, r: string, s: string)
    requires WellFormed(f.value) && WellFormed(g.value) && Stop(r) && Stop(s)
    requires RenderField(f) + r == RenderField(g) + s
    ensures f == g && r == s
    decreases f, 1
  {
    FieldText(f, r);
    FieldText(g, s);
    var x, y := Render(f.value) + r, Render(g.value) + s;
    QuoteReadable(f.key, g.key, ":" + x, ":" + y);
    assert x == (":" + x)[1..] && y == (":" + y)[1..];
    RenderReadable(f.value, g.value, r, s);
  }

  lemma {:induction false} FieldsFirstChar(fs: seq<Field>, r: string)
    ensures (RenderFields(fs) + ("}" + r))[0] == if fs == [] then '}' else '\"'
    ensures fs != [] ==>
              RenderFields(fs) + ("}" + r) == RenderField(fs[0]) + (RenderMoreFields(fs[1..]) + ("}" + r))
  {
    if fs != [] {
      FieldText(fs[0], "");
      Associative(RenderField(fs[0]), RenderMoreFields(fs[1..]), "}" + r);
    }
  }

  lemma {:induction false} MoreFieldsFirstChar(fs: seq<Field>, r: string)
    ensures (RenderMoreFields(fs) + ("}" + r))[0] == if fs == [] then '}' else ','
    ensures fs != [] ==>
              (RenderMoreFields(fs) + ("}" + r))[1..] == RenderField(fs[0]) + (RenderMoreFields(fs[1..]) + ("}" + r))
  {
    if fs != [] {
      Bracketed(",", RenderField(fs[0]), RenderMoreFields(fs[1..]), "}" + r);
    }
  }

  lemma {:induction false} FieldsReadable(fs: seq<Field>, gs: seq<Field>, r: string, s: string)
    requires forall i :: 0 <= i < |fs| ==> WellFormed(fs[i].value)
    requires forall i :: 0 <= i < |gs| ==> WellFormed(gs[i].value)
    requires RenderFields(fs) + ("}" + r) == RenderFields(gs) + ("}" + s)
    ensures fs == gs && r == s
    decreases fs, 2
  {
    FieldsFirstChar(fs, r);
    FieldsFirstChar(gs, s);
    if fs == [] {
      assert r == (RenderFields(fs) + ("}" + r))[1..] && s == (RenderFields(gs) + ("}" + s))[1..];
    } else {
      MoreFieldsFirstChar(fs[1..], r);
      MoreFieldsFirstChar(gs[1..], s);
      FieldReadable(fs[0], gs[0], RenderMoreFields(fs[1..]) + ("}" + r), RenderMoreFields(gs[1..]) + ("}" + s));
      MoreFieldsReadable(fs[1..], gs[1..], r, s);
      assert fs == [fs[0]] + fs[1..] && gs == [gs[0]] + gs[1..];
    }
  }

  lemma {:induction false} MoreFieldsReadable(fs: seq<Field>, gs: seq<Field>, r: string, s: string)
    requires forall i :: 0 <= i < |fs| ==> WellFormed(fs[i].value)
    requires forall i :: 0 <= i < |gs| ==> WellFormed(gs[i].value)
    requires RenderMoreFields(fs) + ("}" + r) == RenderMoreFields(gs) + ("}" + s)
    ensures fs == gs && r == s
    decreases fs, 2
  {
    MoreFieldsFirstChar(fs, r);
    MoreFieldsFirstChar(gs, s);
    if fs == [] {
      assert r == (RenderMoreFields(fs) + ("}" + r))[1..] && s == (RenderMoreFields(gs) + ("}" + s))[1..];
    } else {
      MoreFieldsFirstChar(fs[1..], r);
      MoreFieldsFirstChar(gs[1..], s);
      FieldReadable(fs[0], gs[0], RenderMoreFields(fs[1..]) + ("}" + r), RenderMoreFields(gs[1..]) + ("}" + s));
      MoreFieldsReadable(fs[1..], gs[1..], r, s);
      assert fs == [fs[0]] + fs[1..] && gs == [gs[0]] + gs[1..];
    }
  }

  // ----- sorting the keys forgets their order and nothing else -----

  predicate Sorted(fs: seq<Field>) {
    forall i, j :: 0 <= i < j < |fs| ==> Before(fs[i].key, fs[j].key)
  }

  lemma {:induction false} BeforeTotal(a: string, b: string)
    ensures Before(a, b) || Before(b, a) || a == b
    ensures !(Before(a, b) && Before(b, a)) && (a == b ==> !Before(a, b))
  {
    if a != "" && b != "" && a[0] == b[0] {
      BeforeTotal(a[1..], b[1..]);
      assert a == [a[0]] + a[1..] && b == [b[0]] + b[1..];
    }
  }

  lemma BeforeTransitive(a: string, b: string, c: string)
    requires Before(a, b) && Before(b, c)
    ensures Before(a, c)
  {}

  lemma {:induction false} InsertKeepsFields(f: Field, fs: seq<Field>)
    ensures multiset(InsertField(f, fs)) == multiset(fs) + multiset{f}
  {
    if fs != [] && !Before(f.key, fs[0].key) {
      InsertKeepsFields(f, fs[1..]);
      assert fs == [fs[0]] + fs[1..];
    }
  }

  lemma {:induction false} InsertSorted(f: Field, fs: seq<Field>)
    requires Sorted(fs) && forall i :: 0 <= i < |fs| ==> fs[i].key != f.key
    ensures Sorted(InsertField(f, fs))
  {
    if fs != [] {
      BeforeTotal(f.key, fs[0].key);
      if Before(f.key, fs[0].key) {
        forall j | 1 <= j < |fs| ensures Before(f.key, fs[j].key) {
          BeforeTransitive(f.key, fs[0].key, fs[j].key);
        }
      } else {
        InsertSorted(f, fs[1..]);
        InsertKeepsFields(f, fs[1..]);
        var rest := InsertField(f, fs[1..]);
        forall j | 0 <= j < |rest| ensures Before(fs[0].key, rest[j].key) {
          assert rest[j] in multiset(rest);
          assert rest[j] == f || rest[j] in fs[1..];
        }
      }
    }
  }

  lemma {:induction false} SortKeepsFields(fs: seq<Field>)
    ensures multiset(SortFields(fs)) == multiset(fs)
  {
    if fs != [] {
      SortKeepsFields(fs[1..]);
      InsertKeepsFields(fs[0], SortFields(fs[1..]));
      assert fs == [fs[0]] + fs[1..];
    }
  }

  lemma {:induction false} SortKeepsMembers(fs: seq<Field>)
    ensures |SortFields(fs)| == |fs|
    ensures forall f :: f in SortFields(fs) <==> f in fs
  {
    SortKeepsFields(fs);
    assert |SortFields(fs)| == |multiset(SortFields(fs))| == |multiset(fs)| == |fs|;
    forall f ensures f in SortFields(fs) <==> f in fs {
      assert f in SortFields(fs) <==> f in multiset(SortFields(fs));
    }
  }

  lemma {:induction false} SortSorted(fs: seq<Field>)
    requires UniqueKeys(fs)
    ensures Sorted(SortFields(fs))
  {
    if fs != [] {
      SortSorted(fs[1..]);
      SortKeepsMembers(fs[1..]);
      var rest := SortFields(fs[1..]);
      forall i | 0 <= i < |rest| ensures rest[i].key != fs[0].key {
        assert rest[i] in fs[1..];
      }
      InsertSorted(fs[0], rest);
    }
  }

  /** Sorted sequences with the same members are the same sequence. */
  lemma {:induction false} SortedUnique(fs: seq<Field>, gs: seq<Field>)
    requires Sorted(fs) && Sorted(gs) && forall f :: f in fs <==> f in gs
    ensures fs == gs
  {
    assert fs != [] ==> fs[0] in gs;
    assert gs != [] ==> gs[0] in fs;
    if fs != [] {
      BeforeTotal(fs[0].key, gs[0].key);
      assert fs[0] == gs[0];
      forall f ensures f in fs[1..] <==> f in gs[1..] {
        BeforeTotal(fs[0].key, fs[0].key);
        if f in fs[1..] { assert f in gs && f != gs[0]; }
        if f in gs[1..] { assert f in fs && f != fs[0]; }
      }
      SortedUnique(fs[1..], gs[1..]);
      assert fs == [fs[0]] + fs[1..] && gs == [gs[0]] + gs[1..];
    }
  }

  lemma {:induction false} CanonWellFormed(v: Json)
    requires WellFormed(v)
    ensures WellFormed(Canon(v))
  {
    match v
    case Array(es) =>
      forall i | 0 <= i < |es| ensures WellFormed(Canon(es[i])) { CanonWellFormed(es[i]); }
    case Object(fs) =>
      var cs := CanonFields(fs);
      SortSorted(cs);
      SortKeepsMembers(cs);
      var ss := SortFields(cs);
      forall i | 0 <= i < |ss| ensures WellFormed(ss[i].value) {
        assert ss[i] in cs;
        var k :| 0 <= k < |cs| && cs[k] == ss[i];
        CanonWellFormed(fs[k].value);
      }
      forall i, j | 0 <= i < j < |ss| ensures ss[i].key != ss[j].key {
        BeforeTotal(ss[i].key, ss[j].key);
      }
    case _ =>
  }

  lemma {:induction false} CanonEqualIffSame(v: Json, w: Json)
    requires WellFormed(v) && WellFormed(w)
    ensures Canon(v) == Canon(w) <==> Same(v, w)
    decreases v
  {
    match v
    case Array(es) =>
      if w.Array? && |es| == |w.elems| {
        forall i | 0 <= i < |es| ensures Canon(es[i]) == Canon(w.elems[i]) <==> Same(es[i], w.elems[i]) {
          CanonEqualIffSame(es[i], w.elems[i]);
        }
        if Canon(v) == Canon(w) {
          forall i | 0 <= i < |es| ensures Same(es[i], w.elems[i]) {
            assert Canon(v).elems[i] == Canon(w).elems[i];
          }
        }
      } else if w.Array? {
        assert |Canon(v).elems| != |Canon(w).elems|;
      }
    case Object(fs) =>
      if w.Object? {
        ObjectsCanonEqualIffSame(fs, w.fields, v, w);
      }
    case _ =>
  }

  lemma {:induction false} SortedEqualIff(cs: seq<Field>, ds: seq<Field>)
    requires UniqueKeys(cs) && UniqueKeys(ds)
    ensures SortFields(cs) == SortFields(ds) <==> (forall f :: f in cs <==> f in ds)
  {
    SortSorted(cs);
    SortSorted(ds);
    SortKeepsMembers(cs);
    SortKeepsMembers(ds);
    if forall f :: f in cs <==> f in ds {
      SortedUnique(SortFields(cs), SortFields(ds));
    }
  }

  lemma {:induction false} SameMembersIfSame(fs: seq<Field>, gs: seq<Field>)
    requires UniqueKeys(fs) && UniqueKeys(gs)
    requires forall i, j :: 0 <= i < |fs| && 0 <= j < |gs| && fs[i].key == gs[j].key ==> fs[i].value == gs[j].value
    requires KeySet(fs) == KeySet(gs)
    ensures forall f :: f in fs <==> f in gs
  {
    forall i | 0 <= i < |fs| ensures fs[i] in gs {
      assert fs[i].key in KeySet(gs);
    }
    forall j | 0 <= j < |gs| ensures gs[j] in fs {
      assert gs[j].key in KeySet(fs);
    }
  }

  lemma {:induction false} SameIfSameMembers(fs: seq<Field>, gs: seq<Field>)
    requires UniqueKeys(fs) && UniqueKeys(gs)
    requires forall f :: f in fs <==> f in gs
    ensures forall i, j :: 0 <= i < |fs| && 0 <= j < |gs| && fs[i].key == gs[j].key ==> fs[i].value == gs[j].value
    ensures KeySet(fs) == KeySet(gs)
  {
    forall i, j | 0 <= i < |fs| && 0 <= j < |gs| && fs[i].key == gs[j].key ensures fs[i].value == gs[j].value {
      assert fs[i] in gs;
      var k :| 0 <= k < |gs| && gs[k] == fs[i];
      assert gs[k].key == gs[j].key;
    }
    forall k | k in KeySet(fs) ensures k in KeySet(gs) {
      var i :| 0 <= i < |fs| && fs[i].key == k;
      assert fs[i] in gs;
    }
    forall k | k in KeySet(gs) ensures k in KeySet(fs) {
      var i :| 0 <= i < |gs| && gs[i].key == k;
      assert gs[i] in fs;
    }
  }

  lemma {:induction false} ObjectsCanonEqualIffSame(fs: seq<Field>, gs: seq<Field>, v: Json, w: Json)
    requires v == Object(fs) && w == Object(gs) && WellFormed(v) && WellFormed(w)
    ensures Canon(v) == Canon(w) <==> Same(v, w)
    decreases v, 0
  {
    var cs, ds := CanonFields(fs), CanonFields(gs);
    assert KeySet(cs) == KeySet(fs) && KeySet(ds) == KeySet(gs);
    forall i, j | 0 <= i < |fs| && 0 <= j < |gs| && fs[i].key == gs[j].key
      ensures cs[i].value == ds[j].value <==> Same(fs[i].value, gs[j].value)
    {
      CanonEqualIffSame(fs[i].value, gs[j].value);
    }
    SortedEqualIff(cs, ds);
    if Canon(v) == Canon(w) {
      SameIfSameMembers(cs, ds);
    }
    if Same(v, w) {
      SameMembersIfSame(cs, ds);
    }
  }

  /** Two values print alike exactly when they differ only in the order of object keys. */
  lemma {:induction false} StableJsonCanonical(v: Json, w: Json)
    requires WellFormed(v) && WellFormed(w)
    ensures StableJson(v) == StableJson(w) <==> Same(v, w)
  {
    CanonEqualIffSame(v, w);
    CanonWellFormed(v);
    CanonWellFormed(w);
    if StableJson(v) == StableJson(w) {
      assert Render(Canon(v)) + "" == Render(Canon(w)) + "";
      RenderReadable(Canon(v), Canon(w), "", "");
    }
  }

  predicate Leaf(v: Json) {
    !v.Array? && !v.Object?
  }

  /** Flat records with one key list print alike only when they are equal. */
  lemma {:induction false} RecordInjective(fs: seq<Field>, gs: seq<Field>)
    requires WellFormed(Object(fs)) && WellFormed(Object(gs)) && |fs| == |gs|
    requires forall i :: 0 <= i < |fs| ==> fs[i].key == gs[i].key && Leaf(fs[i].value)
    requires StableJson(Object(fs)) == StableJson(Object(gs))
    ensures fs == gs
  {
    StableJsonCanonical(Object(fs), Object(gs));
    forall i | 0 <= i < |fs| ensures fs[i] == gs[i] {
      assert Same(fs[i].value, gs[i].value);
    }
  }
}

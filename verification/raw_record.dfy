/** The raw-record parser of the analysis loop (src/xIM.py:98): a line of
    capture output is split on whitespace, each token is split at its first
    ':' into a field name and a value, and the pairs are collected into a
    dictionary in which a later duplicate name overwrites an earlier one. */
module RawRecord {
  import opened Wrappers

  /** A parsed record: field name to field value. */
  type Record = map<string, string>

  /** One `name:value` token after splitting. */
  type Field = (string, string)

  /** What the Python code raises while turning a line into an event:
      `ValueError` when element `element` of the pairs handed to `dict` is
      not a pair, `KeyError` when a looked-up field is missing. */
  datatype Fault = ValueError(element: nat) | KeyError(key: string)

  /** Python's `str.isspace` on a single character: the separators that
      `str.split()` with no argument splits on. */
  predicate IsSpace(c: char) {
    || ('\U{0009}' <= c <= '\U{000D}')
    || ('\U{001C}' <= c <= '\U{0020}')
    || c == '\U{0085}' || c == '\U{00A0}' || c == '\U{1680}'
    || ('\U{2000}' <= c <= '\U{200A}')
    || c == '\U{2028}' || c == '\U{2029}' || c == '\U{202F}'
    || c == '\U{205F}' || c == '\U{3000}'
  }

  /** A token as `str.split()` produces it: non-empty, without whitespace. */
  predicate IsWord(w: string) {
    w != [] && forall i :: 0 <= i < |w| ==> !IsSpace(w[i])
  }

  /** Length of the longest whitespace-free prefix of `s`. */
  function WordLength(s: string): (n: nat)
    ensures n <= |s|
    ensures forall i :: 0 <= i < n ==> !IsSpace(s[i])
    ensures n < |s| ==> IsSpace(s[n])
  {
    if s == [] || IsSpace(s[0]) then 0 else 1 + WordLength(s[1..])
  }

  /** `s.split()`: the maximal runs of non-whitespace characters, in order;
      leading, trailing and repeated whitespace produce no empty tokens. */
  function Tokens(s: string): (ts: seq<string>)
    ensures forall i :: 0 <= i < |ts| ==> IsWord(ts[i])
    decreases |s|
  {
    if s == [] then []
    else if IsSpace(s[0]) then Tokens(s[1..])
    else
      var n := WordLength(s);
      [s[..n]] + Tokens(s[n..])
  }

  /** Tokens written back out, separated by single spaces. */
  function Join(ts: seq<string>): string {
    if ts == [] then []
    else if |ts| == 1 then ts[0]
    else ts[0] + " " + Join(ts[1..])
  }

  /** Index of the first ':' in `tok`, or `|tok|` when there is none. */
  function ColonIndex(tok: string): (i: nat)
    ensures i <= |tok|
    ensures ':' !in tok[..i]
    ensures i < |tok| ==> tok[i] == ':'
  {
    if tok == [] || tok[0] == ':' then 0
    else
      var i := 1 + ColonIndex(tok[1..]);
      assert tok[..i] == [tok[0]] + tok[1..][..i - 1];
      i
  }

  /** `tok.split(':', 1)` when it yields a pair: the name before the first
      ':' and the rest of the token, which may itself hold ':'. A token
      without ':' yields a single element, which is None here. */
  function SplitField(tok: string): (r: Option<Field>)
    ensures r.None? <==> ':' !in tok
    ensures r.Some? ==> tok == r.value.0 + ":" + r.value.1 && ':' !in r.value.0
  {
    var i := ColonIndex(tok);
    if i < |tok| then
      assert tok == tok[..i] + ":" + tok[i + 1..];
      Some((tok[..i], tok[i + 1..]))
    else
      assert tok[..i] == tok;
      None
  }

  /** Splits every token, stopping at the first one without ':'; the error
      is that token's position, which Python reports as the element number. */
  function SplitTokens(toks: seq<string>): (r: Result<seq<Field>, nat>)
    ensures r.Success? <==> forall i :: 0 <= i < |toks| ==> ':' in toks[i]
    ensures r.Success? ==>
              && |r.value| == |toks|
              && forall i :: 0 <= i < |toks| ==> SplitField(toks[i]) == Some(r.value[i])
    ensures r.Failure? ==>
              && r.error < |toks|
              && ':' !in toks[r.error]
              && forall i :: 0 <= i < r.error ==> ':' in toks[i]
  {
    if toks == [] then Success([])
    else
      match SplitField(toks[0])
      case None => Failure(0)
      case Some(kv) =>
        match SplitTokens(toks[1..])
        case Failure(i) => Failure(i + 1)
        case Success(rest) => Success([kv] + rest)
  }

  /** No field after position `i` repeats the name of field `i`. */
  predicate LastWithName(fs: seq<Field>, i: int)
    requires 0 <= i < |fs|
  {
    forall j :: i < j < |fs| ==> fs[j].0 != fs[i].0
  }

  /** `dict(fs)`: the names are exactly those of the fields, and each name
      maps to the value of its last occurrence. */
  function BuildDict(fs: seq<Field>): (m: Record)
    ensures forall k :: k in m <==> exists i :: 0 <= i < |fs| && fs[i].0 == k
    ensures forall i :: 0 <= i < |fs| && LastWithName(fs, i) ==>
              fs[i].0 in m && m[fs[i].0] == fs[i].1
    decreases |fs|
  {
    if fs == [] then map[]
    else
      var m0 := BuildDict(fs[..|fs| - 1]);
      DictExtend(fs, m0);
      m0[fs[|fs| - 1].0 := fs[|fs| - 1].1]
  }

  /** Adding one more pair to `dict`'s input overwrites that name and keeps
      every other entry. */
  lemma DictExtend(fs: seq<Field>, m0: Record)
    requires fs != []
    requires var init := fs[..|fs| - 1];
             && (forall k :: k in m0 <==> exists i :: 0 <= i < |init| && init[i].0 == k)
             && (forall i :: 0 <= i < |init| && LastWithName(init, i) ==>
                   init[i].0 in m0 && m0[init[i].0] == init[i].1)
    ensures var m := m0[fs[|fs| - 1].0 := fs[|fs| - 1].1];
            && (forall k :: k in m <==> exists i :: 0 <= i < |fs| && fs[i].0 == k)
            && (forall i :: 0 <= i < |fs| && LastWithName(fs, i) ==>
                  fs[i].0 in m && m[fs[i].0] == fs[i].1)
  {
    var n := |fs| - 1;
    var init := fs[..n];
    var m := m0[fs[n].0 := fs[n].1];
    forall k ensures k in m <==> exists i :: 0 <= i < |fs| && fs[i].0 == k {
      if k == fs[n].0 {
        assert fs[n].0 == k;
      } else if k in m0 {
        var i :| 0 <= i < |init| && init[i].0 == k;
        assert fs[i].0 == k;
      }
    }
    forall i | 0 <= i < |fs| && LastWithName(fs, i)
      ensures fs[i].0 in m && m[fs[i].0] == fs[i].1
    {
      if i < n {
        assert fs[n].0 != fs[i].0;
        assert init[i] == fs[i];
        assert LastWithName(init, i);
      }
    }
  }

  /** The whole of line 98: a record, or the ValueError raised by `dict`
      for the first token that holds no ':'. */
  function ParseLine(line: string): (r: Result<Record, Fault>)
    ensures r.Success? <==> forall i :: 0 <= i < |Tokens(line)| ==> ':' in Tokens(line)[i]
    ensures r.Failure? ==>
              && r.error.ValueError?
              && r.error.element < |Tokens(line)|
              && ':' !in Tokens(line)[r.error.element]
              && forall i :: 0 <= i < r.error.element ==> ':' in Tokens(line)[i]
    ensures r.Success? ==>
              var toks := Tokens(line);
              forall k :: k in r.value <==> exists i :: 0 <= i < |toks| && NameOf(toks[i]) == k
    ensures r.Success? ==>
              var toks := Tokens(line);
              forall i :: 0 <= i < |toks| && LastNamed(toks, i) ==>
                NameOf(toks[i]) in r.value && r.value[NameOf(toks[i])] == ValueOf(toks[i])
  {
    var toks := Tokens(line);
    match SplitTokens(toks)
    case Failure(i) => Failure(ValueError(i))
    case Success(fs) =>
      FieldsAreParts(toks, fs);
      Success(BuildDict(fs))
  }

  /** Split fields are the tokens' names and values, so the last token
      with a name is also the last field with it. */
  lemma FieldsAreParts(toks: seq<string>, fs: seq<Field>)
    requires |fs| == |toks|
    requires forall i :: 0 <= i < |toks| ==> SplitField(toks[i]) == Some(fs[i])
    ensures forall i :: 0 <= i < |toks| ==> fs[i] == (NameOf(toks[i]), ValueOf(toks[i]))
    ensures forall i :: 0 <= i < |toks| && LastNamed(toks, i) ==> LastWithName(fs, i)
  {
    forall i | 0 <= i < |toks| ensures fs[i] == (NameOf(toks[i]), ValueOf(toks[i])) {
      assert SplitField(toks[i]) == Some(fs[i]);
    }
  }

  /** The field name of a token: the text before its first ':' (the whole
      token when there is none). */
  function NameOf(tok: string): string {
    tok[..ColonIndex(tok)]
  }

  /** The field value of a token: the text after its first ':' (empty
      when there is none). */
  function ValueOf(tok: string): string {
    var i := ColonIndex(tok);
    if i < |tok| then tok[i + 1..] else []
  }

  /** No token after position `i` has the same field name as token `i`. */
  predicate LastNamed(toks: seq<string>, i: int)
    requires 0 <= i < |toks|
  {
    forall j :: i < j < |toks| ==> NameOf(toks[j]) != NameOf(toks[i])
  }

  /** A record written out as capture output: `name:value` tokens joined by
      single spaces. */
  function Render(fs: seq<Field>): string {
    Join(RenderTokens(fs))
  }

  function RenderTokens(fs: seq<Field>): (ts: seq<string>)
    ensures |ts| == |fs|
    ensures forall i :: 0 <= i < |fs| ==> ts[i] == fs[i].0 + ":" + fs[i].1
  {
    if fs == [] then [] else [fs[0].0 + ":" + fs[0].1] + RenderTokens(fs[1..])
  }

  /** A field that survives rendering: its name holds no ':' and neither
      part holds whitespace. */
  predicate Renderable(f: Field) {
    && ':' !in f.0
    && (forall i :: 0 <= i < |f.0| ==> !IsSpace(f.0[i]))
    && (forall i :: 0 <= i < |f.1| ==> !IsSpace(f.1[i]))
  }

  /** The word of length `|w|` at the front of `w + rest` is `w` itself
      when `rest` starts with whitespace. */
  lemma {:induction false} WordLengthOfWord(w: string, rest: string)
    requires forall i :: 0 <= i < |w| ==> !IsSpace(w[i])
    requires rest == [] || IsSpace(rest[0])
    ensures WordLength(w + rest) == |w|
    decreases |w|
  {
    if w == [] {
      assert w + rest == rest;
    } else {
      assert (w + rest)[1..] == w[1..] + rest;
      WordLengthOfWord(w[1..], rest);
    }
  }

  /** Splitting a word followed by whitespace-led text yields the word,
      then the tokens of the text. */
  lemma TokensOfWord(w: string, rest: string)
    requires IsWord(w)
    requires rest == [] || IsSpace(rest[0])
    ensures Tokens(w + rest) == [w] + Tokens(rest)
  {
    WordLengthOfWord(w, rest);
    assert (w + rest)[..|w|] == w;
    assert (w + rest)[|w|..] == rest;
  }

  /** `str.split()` undoes joining with single spaces, as long as every
      token is a word. */
  lemma {:induction false} TokensOfJoin(ts: seq<string>)
    requires forall i :: 0 <= i < |ts| ==> IsWord(ts[i])
    ensures Tokens(Join(ts)) == ts
    decreases |ts|
  {
    if ts == [] {
    } else if |ts| == 1 {
      TokensOfWord(ts[0], []);
      assert ts[0] + [] == ts[0];
    } else {
      var rest := " " + Join(ts[1..]);
      assert Join(ts) == ts[0] + rest;
      TokensOfWord(ts[0], rest);
      assert rest[1..] == Join(ts[1..]);
      TokensOfJoin(ts[1..]);
      assert [ts[0]] + ts[1..] == ts;
    }
  }

  /** A whitespace character at the end does not lengthen the leading
      word. */
  lemma {:induction false} WordLengthSpaceSuffix(s: string, c: char)
    requires IsSpace(c)
    ensures WordLength(s + [c]) == WordLength(s)
    decreases |s|
  {
    if s != [] && !IsSpace(s[0]) {
      assert (s + [c])[1..] == s[1..] + [c];
      WordLengthSpaceSuffix(s[1..], c);
    }
  }

  /** Trailing whitespace (such as the newline ending every line of
      output) adds no token. */
  lemma {:induction false} TokensSpaceSuffix(s: string, c: char)
    requires IsSpace(c)
    ensures Tokens(s + [c]) == Tokens(s)
    decreases |s|
  {
    if s == [] {
      assert Tokens([c]) == Tokens([c][1..]);
    } else if IsSpace(s[0]) {
      assert (s + [c])[1..] == s[1..] + [c];
      TokensSpaceSuffix(s[1..], c);
    } else {
      var n := WordLength(s);
      WordLengthSpaceSuffix(s, c);
      assert (s + [c])[..n] == s[..n];
      assert (s + [c])[n..] == s[n..] + [c];
      TokensSpaceSuffix(s[n..], c);
    }
  }

  /** A line parses the same with or without a trailing whitespace
      character. */
  lemma ParseLineSpaceSuffix(line: string, c: char)
    requires IsSpace(c)
    ensures ParseLine(line + [c]) == ParseLine(line)
  {
    TokensSpaceSuffix(line, c);
  }

  /** Splitting a rendered field gives the field back. */
  lemma SplitFieldOfRendered(f: Field)
    requires ':' !in f.0
    ensures SplitField(f.0 + ":" + f.1) == Some(f)
  {
    var tok := f.0 + ":" + f.1;
    var i := ColonIndex(tok);
    assert tok[|f.0|] == ':';
    assert tok[..i] == f.0;
    assert tok[i + 1..] == f.1;
  }

  /** Round trip: parsing a rendered record gives the dictionary of its
      fields, duplicates resolved in favour of the last one. */
  lemma ParseRender(fs: seq<Field>)
    requires forall i :: 0 <= i < |fs| ==> Renderable(fs[i])
    ensures ParseLine(Render(fs)) == Success(BuildDict(fs))
  {
    var ts := RenderTokens(fs);
    forall i | 0 <= i < |ts|
      ensures IsWord(ts[i]) && ':' in ts[i] && SplitField(ts[i]) == Some(fs[i])
    {
      RenderedField(fs[i]);
    }
    TokensOfJoin(ts);
    var r := SplitTokens(ts);
    assert r.value == fs;
  }

  /** A renderable field becomes one whitespace-free token that splits back
      into the same field. */
  lemma RenderedField(f: Field)
    requires Renderable(f)
    ensures IsWord(f.0 + ":" + f.1)
    ensures ':' in f.0 + ":" + f.1
    ensures SplitField(f.0 + ":" + f.1) == Some(f)
  {
    var tok := f.0 + ":" + f.1;
    assert tok[|f.0|] == ':';
    forall j | 0 <= j < |tok| ensures !IsSpace(tok[j]) {
      if j < |f.0| {
        assert tok[j] == f.0[j];
      } else if j > |f.0| {
        assert tok[j] == f.1[j - |f.0| - 1];
      }
    }
    SplitFieldOfRendered(f);
  }
}

/** The theme-index reader: `theme_inherits` in src/lib.rs, which finds the parent theme a
    theme's `index.theme` declares with an `Inherits=` line. The file's contents are an
    argument; a file that cannot be read is `None`. */
module ThemeIndex {
  import opened Wrappers
  import opened Text

  const INHERITS: string := "Inherits"

  /** `char::is_whitespace`: the Unicode White_Space property, tested by ranges. */
  predicate IsWhitespace(c: char) {
    || c == ' '
    || ('\t' <= c <= '\r')
    || c == '\U{0085}' || c == '\U{00A0}' || c == '\U{1680}'
    || ('\U{2000}' <= c <= '\U{200A}')
    || c == '\U{2028}' || c == '\U{2029}' || c == '\U{202F}' || c == '\U{205F}' || c == '\U{3000}'
  }

  /** `is_xcursor_space_or_separator`. */
  predicate IsSeparator(c: char) {
    IsWhitespace(c) || c == ';' || c == ','
  }

  /** `IsWhitespace` holds of exactly the 25 code points of White_Space. */
  lemma WhitespaceChars(c: char)
    ensures IsWhitespace(c) <==> c in {
      '\t', '\n', '\U{000B}', '\U{000C}', '\r', ' ', '\U{0085}', '\U{00A0}', '\U{1680}',
      '\U{2000}', '\U{2001}', '\U{2002}', '\U{2003}', '\U{2004}', '\U{2005}', '\U{2006}',
      '\U{2007}', '\U{2008}', '\U{2009}', '\U{200A}',
      '\U{2028}', '\U{2029}', '\U{202F}', '\U{205F}', '\U{3000}'}
  {
  }

  /** The separators are exactly white space, `;` and `,`. */
  lemma SeparatorChars(c: char)
    ensures IsSeparator(c) <==> IsWhitespace(c) || c in {';', ','}
  {
  }

  predicate AllWhitespace(s: string) { forall i :: 0 <= i < |s| ==> IsWhitespace(s[i]) }

  predicate AllSeparators(s: string) { forall i :: 0 <= i < |s| ==> IsSeparator(s[i]) }

  predicate NoSeparator(s: string) { forall i :: 0 <= i < |s| ==> !IsSeparator(s[i]) }

  /** `str::trim_start`: the longest suffix that does not begin with whitespace. */
  function TrimStart(s: string): (t: string)
    ensures |t| <= |s| && t == s[|s| - |t|..]
    ensures AllWhitespace(s[..|s| - |t|])
    ensures t == [] || !IsWhitespace(t[0])
  {
    if s != [] && IsWhitespace(s[0]) then
      var t := TrimStart(s[1..]);
      WhitespaceCons(s, t);
      t
    else s
  }

  /** A whitespace character followed by whitespace. */
  lemma WhitespaceCons(s: string, t: string)
    requires s != [] && |t| < |s| && IsWhitespace(s[0]) && AllWhitespace(s[1..][..|s[1..]| - |t|])
    ensures AllWhitespace(s[..|s| - |t|])
  {
    var k := |s| - |t|;
    forall i | 0 <= i < k ensures IsWhitespace(s[..k][i]) {
      if i > 0 {
        assert s[..k][i] == s[1..][..|s[1..]| - |t|][i - 1];
      }
    }
  }

  /** `skip_while(is_xcursor_space_or_separator)`. */
  function SkipSeparators(s: string): (t: string)
    ensures |t| <= |s| && t == s[|s| - |t|..]
    ensures AllSeparators(s[..|s| - |t|])
    ensures t == [] || !IsSeparator(t[0])
  {
    if s != [] && IsSeparator(s[0]) then
      var t := SkipSeparators(s[1..]);
      SeparatorsCons(s, t);
      t
    else s
  }

  /** A separator followed by separators. */
  lemma SeparatorsCons(s: string, t: string)
    requires s != [] && |t| < |s| && IsSeparator(s[0]) && AllSeparators(s[1..][..|s[1..]| - |t|])
    ensures AllSeparators(s[..|s| - |t|])
  {
    var k := |s| - |t|;
    forall i | 0 <= i < k ensures IsSeparator(s[..k][i]) {
      if i > 0 {
        assert s[..k][i] == s[1..][..|s[1..]| - |t|][i - 1];
      }
    }
  }

  /** `take_while(|ch| !is_xcursor_space_or_separator(ch))`: the longest separator-free prefix. */
  function TakeToken(s: string): (tok: string)
    ensures |tok| <= |s| && tok == s[..|tok|]
    ensures NoSeparator(tok)
    ensures |tok| == |s| || IsSeparator(s[|tok|])
  {
    if s != [] && !IsSeparator(s[0]) then [s[0]] + TakeToken(s[1..]) else []
  }

  /** `str::lines`: split after each `\n`, dropping the `\n` and a `\r` just before it;
      a final line without a terminator is kept, an empty final piece is not. */
  function Lines(s: string): (ls: seq<string>)
    ensures forall i :: 0 <= i < |ls| ==> '\n' !in ls[i]
    decreases |s|
  {
    if s == [] then []
    else
      var i := IndexOf(s, '\n');
      if i == |s| then [s]
      else
        var line := s[..i];
        var line := if line != [] && line[|line| - 1] == '\r' then line[..|line| - 1] else line;
        assert forall j :: 0 <= j < |line| ==> line[j] == s[j];
        [line] + Lines(s[i + 1..])
  }

  /** What follows the `=` of a line that starts with `Inherits`, optional whitespace and
      `=`; `None` for any other line. */
  function AfterEquals(line: string): (r: Option<string>)
    ensures r.Some? ==>
      var k := |line| - |r.value| - 1;
      && StartsWith(line, INHERITS) && |INHERITS| <= k
      && line[k] == '=' && line[k + 1..] == r.value
      && AllWhitespace(line[|INHERITS|..k])
  {
    if !StartsWith(line, INHERITS) then None
    else
      var rest := TrimStart(line[|INHERITS|..]);
      if rest == [] || rest[0] != '=' then None
      else
        EqualsAfterWhitespace(line, rest);
        Some(rest[1..])
  }

  /** Where the text after `Inherits` is whitespace followed by `rest`, which begins with
      `=`: that `=` sits at index `|line| - |rest|`, after whitespace only. */
  lemma EqualsAfterWhitespace(line: string, rest: string)
    requires |INHERITS| <= |line| && rest != [] && rest[0] == '='
    requires var s := line[|INHERITS|..];
      |rest| <= |s| && rest == s[|s| - |rest|..] && AllWhitespace(s[..|s| - |rest|])
    ensures var k := |line| - |rest|;
      && |INHERITS| <= k && line[k] == '=' && line[k + 1..] == rest[1..]
      && AllWhitespace(line[|INHERITS|..k])
  {
    var s, k := line[|INHERITS|..], |line| - |rest|;
    assert |s| - |rest| == k - |INHERITS|;
    assert s[..k - |INHERITS|] == line[|INHERITS|..k];
    assert line[k..] == s[|s| - |rest|..] == rest;
    assert line[k + 1..] == line[k..][1..];
  }

  /** The value one line declares: the first separator-free token after the `=`, when it
      is non-empty. Any other line declares nothing. */
  function LineInherits(line: string): (v: Option<string>)
    ensures v.Some? ==> v.value != [] && NoSeparator(v.value)
  {
    match AfterEquals(line)
    case None => None
    case Some(valuePart) =>
      var token := TakeToken(SkipSeparators(valuePart));
      if token == [] then None else Some(token)
  }

  /** The first value present in `vs`, scanning in order. */
  function FirstSome(vs: seq<Option<string>>): Option<string>
  {
    if vs == [] then None
    else match vs[0]
      case Some(value) => Some(value)
      case None => FirstSome(vs[1..])
  }

  /** What each line declares, line by line. */
  function Declarations(lines: seq<string>): (ds: seq<Option<string>>)
    ensures |ds| == |lines|
    ensures forall i :: 0 <= i < |ds| ==> ds[i] == LineInherits(lines[i])
  {
    seq(|lines|, i requires 0 <= i < |lines| => LineInherits(lines[i]))
  }

  /** `theme_inherits`: the value of the first line that declares one; an unreadable file
      declares nothing. */
  function ThemeInherits(content: Option<string>): (v: Option<string>)
    ensures content.None? ==> v.None?
    ensures v.Some? ==> v.value != [] && NoSeparator(v.value)
  {
    match content
    case None => None
    case Some(text) =>
      FirstSomeWellFormed(Declarations(Lines(text)));
      FirstSome(Declarations(Lines(text)))
  }

  /** When every present value is a non-empty token without separators, so is the first. */
  lemma {:induction false} FirstSomeWellFormed(vs: seq<Option<string>>)
    requires forall i :: 0 <= i < |vs| && vs[i].Some? ==> vs[i].value != [] && NoSeparator(vs[i].value)
    ensures FirstSome(vs).Some? ==> FirstSome(vs).value != [] && NoSeparator(FirstSome(vs).value)
    decreases |vs|
  {
    if vs != [] && vs[0].None? {
      assert forall i :: 0 <= i < |vs[1..]| ==> vs[1..][i] == vs[i + 1];
      FirstSomeWellFormed(vs[1..]);
    }
  }

  /** `FirstSome` picks the first present value: every element before it is absent, and it
      is absent only when all are. */
  lemma {:induction false} FirstSomeIsFirst(vs: seq<Option<string>>)
    ensures FirstSome(vs).None? <==> forall i :: 0 <= i < |vs| ==> vs[i].None?
    ensures FirstSome(vs).Some? ==>
      exists i :: 0 <= i < |vs| && vs[i] == FirstSome(vs) && forall j :: 0 <= j < i ==> vs[j].None?
  {
    if vs != [] {
      FirstSomeIsFirst(vs[1..]);
      if vs[0].None? {
        if FirstSome(vs).Some? {
          var i :| 0 <= i < |vs[1..]| && vs[1..][i] == FirstSome(vs[1..])
                   && forall j :: 0 <= j < i ==> vs[1..][j].None?;
          assert vs[i + 1] == FirstSome(vs);
          forall j | 0 <= j < i + 1 ensures vs[j].None? {
            if j > 0 { assert vs[j] == vs[1..][j - 1]; }
          }
        } else {
          forall i | 0 <= i < |vs| ensures vs[i].None? {
            if i > 0 { assert vs[i] == vs[1..][i - 1]; }
          }
        }
      }
    }
  }

  /** Over any lines: the first declared value belongs to a line that declares it, lines
      before it declare nothing, and there is none exactly when no line declares one. */
  lemma FirstDeclaration(lines: seq<string>)
    ensures var v := FirstSome(Declarations(lines));
      && (v.None? <==> forall i :: 0 <= i < |lines| ==> LineInherits(lines[i]).None?)
      && (v.Some? ==>
            exists i :: 0 <= i < |lines| && LineInherits(lines[i]) == v
                        && forall j :: 0 <= j < i ==> LineInherits(lines[j]).None?)
      && (v.Some? ==> v.value != [] && NoSeparator(v.value))
  {
    var ds := Declarations(lines);
    FirstSomeIsFirst(ds);
    if FirstSome(ds).Some? {
      var i :| 0 <= i < |ds| && ds[i] == FirstSome(ds) && forall j :: 0 <= j < i ==> ds[j].None?;
      assert LineInherits(lines[i]) == ds[i];
    }
  }

  /** The parent a readable index declares is the value of its first declaring line: lines
      before it declare nothing, and there is no parent exactly when no line declares one.
      A declared parent is a non-empty token without whitespace, `;` or `,`. */
  lemma ThemeInheritsIsFirstDeclaration(text: string)
    ensures var lines := Lines(text);
      && (ThemeInherits(Some(text)).None? <==> forall i :: 0 <= i < |lines| ==> LineInherits(lines[i]).None?)
      && (ThemeInherits(Some(text)).Some? ==>
            exists i :: 0 <= i < |lines| && LineInherits(lines[i]) == ThemeInherits(Some(text))
                        && forall j :: 0 <= j < i ==> LineInherits(lines[j]).None?)
    ensures ThemeInherits(Some(text)).Some? ==>
      ThemeInherits(Some(text)).value != [] && NoSeparator(ThemeInherits(Some(text)).value)
  {
    var lines := Lines(text);
    ThemeInheritsOfText(text);
    FirstDeclaration(lines);
    var v := ThemeInherits(Some(text));
    if v.Some? {
      var i :| 0 <= i < |lines| && LineInherits(lines[i]) == v
               && forall j :: 0 <= j < i ==> LineInherits(lines[j]).None?;
    }
  }

  /** A readable index declares the first value its lines declare. */
  lemma ThemeInheritsOfText(text: string)
    ensures ThemeInherits(Some(text)) == FirstSome(Declarations(Lines(text)))
  {
  }

  lemma {:induction false} TrimWhitespacePrefix(ws: string, s: string)
    requires AllWhitespace(ws)
    requires s != [] && !IsWhitespace(s[0])
    ensures TrimStart(ws + s) == s
    decreases |ws|
  {
    if ws != [] {
      assert (ws + s)[1..] == ws[1..] + s;
      TrimWhitespacePrefix(ws[1..], s);
    }
  }

  lemma {:induction false} SkipSeparatorPrefix(seps: string, s: string)
    requires AllSeparators(seps)
    requires s == [] || !IsSeparator(s[0])
    ensures SkipSeparators(seps + s) == s
    decreases |seps|
  {
    if seps != [] {
      assert (seps + s)[1..] == seps[1..] + s;
      SkipSeparatorPrefix(seps[1..], s);
    } else {
      assert seps + s == s;
    }
  }

  lemma {:induction false} TakeTokenPrefix(v: string, rest: string)
    requires NoSeparator(v)
    requires rest == [] || IsSeparator(rest[0])
    ensures TakeToken(v + rest) == v
    decreases |v|
  {
    if v != [] {
      assert (v + rest)[1..] == v[1..] + rest;
      TakeTokenPrefix(v[1..], rest);
    } else {
      assert v + rest == rest;
    }
  }

  lemma SplitAt(s: string, k: nat)
    requires k <= |s|
    ensures s == s[..k] + s[k..]
  {
  }

  lemma DeclarationLineAssoc(ws: string, seps: string, v: string, rest: string)
    ensures INHERITS + ws + "=" + seps + v + rest == INHERITS + (ws + ("=" + (seps + (v + rest))))
  {
  }

  /** A line of the form `Inherits` whitespace `=` separators value (separator or end)
      declares exactly that value. */
  lemma DeclarationParses(ws: string, seps: string, v: string, rest: string)
    requires AllWhitespace(ws) && AllSeparators(seps)
    requires v != [] && NoSeparator(v)
    requires rest == [] || IsSeparator(rest[0])
    ensures LineInherits(INHERITS + ws + "=" + seps + v + rest) == Some(v)
  {
    var valuePart := seps + (v + rest);
    var after := ws + ("=" + valuePart);
    var line := INHERITS + after;
    DeclarationLineAssoc(ws, seps, v, rest);
    assert line[..|INHERITS|] == INHERITS;
    assert line[|INHERITS|..] == after;
    TrimWhitespacePrefix(ws, "=" + valuePart);
    assert ("=" + valuePart)[1..] == valuePart;
    assert AfterEquals(line) == Some(valuePart);
    SkipSeparatorPrefix(seps, v + rest);
    TakeTokenPrefix(v, rest);
  }

  /** The text before the value part of a line that has one: `Inherits`, whitespace, `=`. */
  lemma AfterEqualsShape(line: string) returns (ws: string)
    requires AfterEquals(line).Some?
    ensures AllWhitespace(ws)
    ensures line == INHERITS + (ws + ("=" + AfterEquals(line).value))
  {
    var after := line[|INHERITS|..];
    var trimmed := TrimStart(after);
    ws := after[..|after| - |trimmed|];
    SplitAt(trimmed, 1);
    assert trimmed[..1] == "=";
    SplitAt(after, |after| - |trimmed|);
    SplitAt(line, |INHERITS|);
  }

  /** The value part of a declaring line: separators, the value, then nothing or a separator. */
  lemma ValuePartShape(valuePart: string) returns (seps: string, rest: string)
    ensures AllSeparators(seps)
    ensures rest == [] || IsSeparator(rest[0])
    ensures valuePart == seps + (TakeToken(SkipSeparators(valuePart)) + rest)
  {
    var skipped := SkipSeparators(valuePart);
    var v := TakeToken(skipped);
    seps := valuePart[..|valuePart| - |skipped|];
    rest := skipped[|v|..];
    SplitAt(skipped, |v|);
    SplitAt(valuePart, |valuePart| - |skipped|);
  }

  /** Conversely, every value a line declares comes from a line of that form. */
  lemma DeclarationShape(line: string) returns (ws: string, seps: string, rest: string)
    requires LineInherits(line).Some?
    ensures AllWhitespace(ws) && AllSeparators(seps)
    ensures rest == [] || IsSeparator(rest[0])
    ensures line == INHERITS + ws + "=" + seps + LineInherits(line).value + rest
  {
    ws := AfterEqualsShape(line);
    var valuePart := AfterEquals(line).value;
    seps, rest := ValuePartShape(valuePart);
    DeclarationLineAssoc(ws, seps, LineInherits(line).value, rest);
  }

  /** `str::lines` cuts a line ended by `\n` off the front of the text. */
  lemma {:induction false} LinesOfTerminatedLine(line: string, rest: string)
    requires '\n' !in line
    requires line == [] || line[|line| - 1] != '\r'
    ensures Lines(line + "\n" + rest) == [line] + Lines(rest)
  {
    var text := line + "\n" + rest;
    assert forall j :: 0 <= j < |line| ==> text[j] == line[j];
    assert text[|line|] == '\n';
    assert IndexOf(text, '\n') == |line|;
    assert text[..|line|] == line;
    assert text[|line| + 1..] == rest;
  }

  /** ... and so does a line ended by `\r\n`, without its `\r`. */
  lemma {:induction false} LinesOfCrLfLine(line: string, rest: string)
    requires '\n' !in line
    ensures Lines(line + "\r\n" + rest) == [line] + Lines(rest)
  {
    var text := line + "\r\n" + rest;
    assert forall j :: 0 <= j < |line| ==> text[j] == line[j];
    assert text[|line| + 1] == '\n';
    assert IndexOf(text, '\n') == |line| + 1;
    assert text[..|line| + 1] == line + "\r";
    assert (line + "\r")[..|line|] == line;
    assert text[|line| + 2..] == rest;
  }

  /** ... and a last piece without `\n` is a line of its own, any `\r` kept, while empty
      text has no lines: with the two lemmas above this fixes `Lines` on every text. */
  lemma LinesOfLastLine(line: string)
    requires '\n' !in line
    ensures Lines(line) == if line == [] then [] else [line]
  {
    if line != [] {
      assert IndexOf(line, '\n') == |line|;
    }
  }

  /** A line whose value part holds only separators declares nothing, so the search goes
      on to the next line. */
  lemma EmptyDeclarationSkipped(ws: string, seps: string)
    requires AllWhitespace(ws) && AllSeparators(seps)
    ensures LineInherits(INHERITS + ws + "=" + seps) == None
  {
    var after := ws + ("=" + seps);
    var line := INHERITS + after;
    assert INHERITS + ws + "=" + seps == line;
    assert line[..|INHERITS|] == INHERITS;
    assert line[|INHERITS|..] == after;
    TrimWhitespacePrefix(ws, "=" + seps);
    assert ("=" + seps)[1..] == seps;
    assert AfterEquals(line) == Some(seps);
    SkipSeparatorPrefix(seps, []);
    assert seps + [] == seps;
  }
}

/** The start-button precondition (`validateInputs`): the six numeric range
    fields, the book mode with its search term or slug, the account list and
    the book-service address. Every failed check contributes one message, in
    check order; the form is valid when there is none. */
module Validator {
  import opened Values
  import opened Text
  import opened Randomizer
  import opened Config
  import opened Combo

  /** The raw text of the form fields the checks read; `mode` is the checked
      radio button, if any. */
  datatype Form = Form(
    minTime: string, maxTime: string,
    minPercent: string, maxPercent: string,
    minQuestions: string, maxQuestions: string,
    mode: Option<BookMode>,
    searchTerm: string, slug: string,
    combo: string,
    apiUrl: string)

  /** The longest prefix of `s` made of characters that are `digit`s. */
  function Run(s: string, digit: char -> bool): (r: string)
    ensures |r| <= |s| && r == s[..|r|]
    ensures forall i :: 0 <= i < |r| ==> digit(r[i])
    ensures |r| < |s| ==> !digit(s[|r|])
  {
    if |s| > 0 && digit(s[0]) then [s[0]] + Run(s[1..], digit) else ""
  }

  predicate IsHexDigit(c: char) {
    IsDigit(c) || 'a' <= c <= 'f' || 'A' <= c <= 'F'
  }

  function HexValue(c: char): (v: nat)
    ensures IsHexDigit(c) ==> v < 16
  {
    if IsDigit(c) then DigitValue(c)
    else if 'a' <= c <= 'f' then c as int - 'a' as int + 10
    else if 'A' <= c <= 'F' then c as int - 'A' as int + 10
    else 0
  }

  /** Reads a string of hexadecimal digits as a number. */
  function ParseHexDigits(s: string): nat {
    if |s| == 0 then 0 else ParseHexDigits(s[..|s| - 1]) * 16 + HexValue(s[|s| - 1])
  }

  /** `parseInt(s)` with no radix: leading whitespace skipped, an optional
      sign, then hexadecimal digits after a `0x` or `0X` prefix and decimal
      digits otherwise, as many as there are; `NaN` (here `None`) when there
      is no digit. */
  function ParseInt(s: string): (r: Option<int>) {
    ParseSigned(TrimStart(s))
  }

  /** `parseInt` after the leading whitespace: an optional sign, then the
      magnitude. */
  function ParseSigned(t: string): (r: Option<int>) {
    if |t| > 0 && t[0] == '-' then
      match ParseMagnitude(t[1..]) case None => None case Some(v) => Some(-(v as int))
    else if |t| > 0 && t[0] == '+' then ParseMagnitude(t[1..])
    else ParseMagnitude(t)
  }

  /** Text that starts with `0x` or `0X`. */
  predicate HasHexPrefix(b: string) {
    |b| >= 2 && b[0] == '0' && (b[1] == 'x' || b[1] == 'X')
  }

  /** The magnitude after the sign: base sixteen after a `0x` or `0X`
      prefix, base ten otherwise. */
  function ParseMagnitude(b: string): (r: Option<nat>) {
    if HasHexPrefix(b) then ParseHex(b[2..]) else ParseUnsigned(b)
  }

  /** The value of the longest prefix of decimal digits, `None` when there
      is no digit. */
  function ParseUnsigned(b: string): (r: Option<nat>) {
    var digits := Run(b, IsDigit);
    if digits == "" then None else Some(ParseDigits(digits))
  }

  /** The value of the longest prefix of hexadecimal digits, `None` when
      there is no digit. */
  function ParseHex(b: string): (r: Option<nat>) {
    var digits := Run(b, IsHexDigit);
    if digits == "" then None else Some(ParseHexDigits(digits))
  }

  /** The run of digits in front of a character that is not one is all of
      them. */
  lemma {:induction false} RunOfNumber(d: string, rest: string, digit: char -> bool)
    requires forall i :: 0 <= i < |d| ==> digit(d[i])
    requires rest == [] || !digit(rest[0])
    ensures Run(d + rest, digit) == d
    decreases |d|
  {
    if |d| > 0 {
      assert (d + rest)[1..] == d[1..] + rest;
      RunOfNumber(d[1..], rest, digit);
    }
  }

  /** Text that does not start with whitespace is left as it is. */
  lemma TrimStartKeeps(s: string)
    requires s != [] && !IsSpace(s[0])
    ensures TrimStart(s) == s
  {
  }

  /** A run of digits followed by a non-digit reads as its value, unless it
      is a lone `0` in front of an `x`. */
  lemma MagnitudeDigits(d: string, rest: string)
    requires d != [] && forall i :: 0 <= i < |d| ==> IsDigit(d[i])
    requires rest == [] || !IsDigit(rest[0])
    requires !(d == "0" && rest != [] && rest[0] in "xX")
    ensures ParseMagnitude(d + rest) == Some(ParseDigits(d))
  {
    RunOfNumber(d, rest, IsDigit);
    if |d| >= 2 {
      assert (d + rest)[1] == d[1];
    } else if rest != [] {
      assert (d + rest)[1] == rest[0];
    }
  }

  /** `parseInt` does not look past text that starts with no
      whitespace. */
  lemma ParseIntNoSpace(s: string)
    requires s != [] && !IsSpace(s[0])
    ensures ParseInt(s) == ParseSigned(s)
  {
    TrimStartKeeps(s);
  }

  /** `parseInt` of text that starts with a digit and whose magnitude is
      `v`. */
  lemma ParseIntPlain(u: string, v: nat)
    requires u != [] && IsDigit(u[0])
    requires ParseMagnitude(u) == Some(v)
    ensures ParseInt(u) == Some(v)
  {
    ParseIntNoSpace(u);
  }

  /** `parseInt` of `-` followed by text whose magnitude is `v`. */
  lemma ParseIntMinus(u: string, v: nat)
    requires ParseMagnitude(u) == Some(v)
    ensures ParseInt(['-'] + u) == Some(-(v as int))
  {
    assert (['-'] + u)[0] == '-' && (['-'] + u)[1..] == u;
    ParseIntNoSpace(['-'] + u);
  }

  /** `parseInt` reads back a rendered integer, and stops at the first
      character after it that is not a digit; the one exception is `0`
      followed by `x` or `X`, which starts a hexadecimal number. */
  lemma ParseIntRender(n: int, rest: string)
    requires rest == [] || !IsDigit(rest[0])
    requires !(n == 0 && rest != [] && rest[0] in "xX")
    ensures ParseInt(IntToString(n) + rest) == Some(n)
  {
    var m: nat := if n >= 0 then n else -n;
    var d := NatToString(m);
    ParseNatToString(m);
    if d == "0" {
      assert ParseDigits(d) == 0;
    }
    MagnitudeDigits(d, rest);
    if n >= 0 {
      assert (d + rest)[0] == d[0];
      ParseIntPlain(d + rest, m);
    } else {
      assert IntToString(n) + rest == ['-'] + (d + rest);
      ParseIntMinus(d + rest, m);
    }
  }

  /** `parseInt` of `0x` and a run of hexadecimal digits, followed by a
      character that is not one, is the value of those digits in base
      sixteen. */
  lemma ParseIntHex(h: string, rest: string)
    requires h != [] && forall i :: 0 <= i < |h| ==> IsHexDigit(h[i])
    requires rest == [] || !IsHexDigit(rest[0])
    ensures ParseInt("0x" + h + rest) == Some(ParseHexDigits(h))
  {
    var u := "0x" + (h + rest);
    assert "0x" + h + rest == u;
    assert u[0] == '0' && u[1] == 'x' && u[2..] == h + rest;
    RunOfNumber(h, rest, IsHexDigit);
    assert ParseHex(h + rest) == Some(ParseHexDigits(h));
    ParseIntPlain(u, ParseHexDigits(h));
  }

  /** `0x` with no hexadecimal digit after it is not a number, although it
      starts with the digit `0`. */
  lemma ParseIntBareHex(rest: string)
    requires rest == [] || !IsHexDigit(rest[0])
    ensures ParseInt("0x" + rest) == None
  {
    var u := "0x" + rest;
    assert u[0] == '0' && u[1] == 'x' && u[2..] == rest;
    RunOfNumber("", rest, IsHexDigit);
    ParseIntNoSpace(u);
  }

  /** The range checks, as an if / else-if chain: at most one message. */
  function RangeError(minTime: Option<int>, maxTime: Option<int>,
                      minPercent: Option<int>, maxPercent: Option<int>,
                      minQuestions: Option<int>, maxQuestions: Option<int>): Option<string> {
    if minTime.None? || maxTime.None? || minTime.value < 1 || maxTime.value < minTime.value then
      Some("Tempos de leitura inválidos.")
    else if minPercent.None? || maxPercent.None? || minPercent.value < 0 || maxPercent.value > 100
            || maxPercent.value < minPercent.value then
      Some("Percentuais de leitura inválidos.")
    else if minQuestions.None? || maxQuestions.None? || minQuestions.value < 0
            || maxQuestions.value < minQuestions.value then
      Some("Número de questões inválido.")
    else None
  }

  /** The six fields parsed, when all six are numbers. */
  function FormRanges(f: Form): Option<Ranges> {
    var a, b := ParseInt(f.minTime), ParseInt(f.maxTime);
    var c, d := ParseInt(f.minPercent), ParseInt(f.maxPercent);
    var g, h := ParseInt(f.minQuestions), ParseInt(f.maxQuestions);
    if a.Some? && b.Some? && c.Some? && d.Some? && g.Some? && h.Some? then
      Some(Ranges(a.value, b.value, c.value, d.value, g.value, h.value))
    else None
  }

  /** The range checks pass exactly when all six values are numbers and
      form ranges the randomizer accepts. */
  lemma RangeErrorSpec(a: Option<int>, b: Option<int>, c: Option<int>,
                       d: Option<int>, g: Option<int>, h: Option<int>)
    ensures RangeError(a, b, c, d, g, h).None? <==>
      && a.Some? && b.Some? && c.Some? && d.Some? && g.Some? && h.Some?
      && ValidRanges(Ranges(a.value, b.value, c.value, d.value, g.value, h.value))
  {
  }

  /** The mode checks: a search needs a non-blank term, a direct slug a
      non-blank slug, and some mode must be chosen. */
  function ModeError(mode: Option<BookMode>, searchTerm: string, slug: string): (r: Option<string>)
    ensures r.None? <==> mode.Some? && (mode.value == Search ==> Trim(searchTerm) != "")
                                     && (mode.value == DirectSlug ==> Trim(slug) != "")
  {
    match mode
    case None => Some("Selecione um modo de livro.")
    case Some(m) =>
      if m == Search && Trim(searchTerm) == "" then Some("Termo de pesquisa é obrigatório.")
      else if m == DirectSlug && Trim(slug) == "" then Some("Slug é obrigatório.")
      else None
  }

  /** The account-list checks: the trimmed list must not be blank, must have
      a line that is not blank once trimmed, and every such line must contain
      a `:`. */
  function ComboError(text: string): Option<string> {
    var t := Trim(text);
    var lines := Split(t, '\n');
    if t == "" then Some("A lista de contas não pode estar vazia.")
    else if forall line :: line in lines ==> Trim(line) == "" then
      Some("Nenhuma conta válida (login:senha) encontrada na lista.")
    else if exists line :: line in lines && Trim(line) != "" && ':' !in Trim(line) then
      Some("Formato inválido na lista de contas. Use login:senha por linha.")
    else None
  }

  /** A non-blank list always has a non-blank line, so the second account-list
      message can never be shown. */
  lemma NonBlankListHasLine(text: string)
    requires Trim(text) != ""
    ensures exists line :: line in Split(Trim(text), '\n') && Trim(line) != ""
  {
    var t := Trim(text);
    var lines := Split(t, '\n');
    JoinSplit(t, '\n');
    FirstLineNotBlank(lines, t);
    assert lines[0] in lines;
  }

  /** The first line of a split text that starts with a non-space is not
      blank. */
  lemma FirstLineNotBlank(lines: seq<string>, t: string)
    requires Join(lines, '\n') == t && |lines| >= 1
    requires t != "" && !IsSpace(t[0])
    ensures Trim(lines[0]) != ""
  {
    if lines[0] == "" {
      assert false;
    }
    JoinEnds(lines, '\n');
    assert lines[0][0] == t[0];
  }

  /** An account list that passes its checks is not blank, and each of its
      non-blank lines has a colon. */
  lemma ComboAcceptedShape(text: string)
    requires ComboError(text).None?
    ensures Trim(text) != ""
    ensures forall line :: line in Split(Trim(text), '\n') && Trim(line) != "" ==> ':' in Trim(line)
  {
  }

  /** A list that is not blank and whose non-blank lines all have a colon
      passes the account-list checks. */
  lemma ComboAcceptedWhen(text: string)
    requires Trim(text) != ""
    requires forall line :: line in Split(Trim(text), '\n') && Trim(line) != "" ==> ':' in Trim(line)
    ensures ComboError(text).None?
  {
    NonBlankListHasLine(text);
  }

  /** The account-list checks pass exactly when the trimmed list is not
      blank and each of its non-blank lines has a colon. */
  lemma ComboErrorSpec(text: string)
    ensures ComboError(text).None? <==>
      && Trim(text) != ""
      && forall line :: line in Split(Trim(text), '\n') && Trim(line) != "" ==> ':' in Trim(line)
  {
    if ComboError(text).None? {
      ComboAcceptedShape(text);
    }
    if Trim(text) != "" && forall line :: line in Split(Trim(text), '\n') && Trim(line) != "" ==> ':' in Trim(line) {
      ComboAcceptedWhen(text);
    }
  }

  /** The address check: the book-service address must not be blank. */
  function UrlError(url: string): Option<string> {
    if Trim(url) == "" then Some("URL da API de Livros não pode estar vazia (verifique Configurações Avançadas).")
    else None
  }

  /** Every check's message, in check order: a message is reported exactly
      when a check gives it, once for each check that fails, and in the order
      of the checks. */
  function Validate(f: Form): (errors: seq<string>)
    ensures |errors| <= 4
    ensures forall m :: m in errors <==> Some(m) in Checks(f)
    ensures exists idx :: Picks(Checks(f), idx, errors)
  {
    SomesMembersAll(Checks(f));
    SomesInOrder(Checks(f));
    Somes(Checks(f))
  }

  /** The outcome of each check, in check order. */
  function Checks(f: Form): seq<Option<string>> {
    [RangeError(ParseInt(f.minTime), ParseInt(f.maxTime), ParseInt(f.minPercent),
                ParseInt(f.maxPercent), ParseInt(f.minQuestions), ParseInt(f.maxQuestions)),
     ModeError(f.mode, f.searchTerm, f.slug),
     ComboError(f.combo),
     UrlError(f.apiUrl)]
  }

  /** `validateInputs()` returning true. */
  predicate Valid(f: Form) {
    Validate(f) == []
  }

  /** A valid form has numeric ranges the randomizer accepts, a chosen mode
      with what it needs, an account list that passes its checks, and a
      non-blank address; and conversely. */
  lemma ValidSpec(f: Form)
    ensures Valid(f) <==>
      && FormRanges(f).Some? && ValidRanges(FormRanges(f).value)
      && ModeError(f.mode, f.searchTerm, f.slug).None?
      && ComboError(f.combo).None?
      && Trim(f.apiUrl) != ""
  {
    RangeErrorSpec(ParseInt(f.minTime), ParseInt(f.maxTime), ParseInt(f.minPercent),
                   ParseInt(f.maxPercent), ParseInt(f.minQuestions), ParseInt(f.maxQuestions));
    var cs := Checks(f);
    NoneOfFour(cs[0], cs[1], cs[2], cs[3]);
    assert cs == [cs[0], cs[1], cs[2], cs[3]];
  }

  /** No value is present exactly when the present values are none. */
  lemma {:induction false} SomesEmpty<T>(xs: seq<Option<T>>)
    ensures Somes(xs) == [] <==> forall k :: 0 <= k < |xs| ==> xs[k].None?
    decreases |xs|
  {
    if |xs| > 0 {
      SomesEmpty(xs[1..]);
      assert forall k :: 1 <= k < |xs| ==> xs[k] == xs[1..][k - 1];
    }
  }

  /** Four outcomes leave no message exactly when none of them has one. */
  lemma NoneOfFour<T>(a: Option<T>, b: Option<T>, c: Option<T>, d: Option<T>)
    ensures Somes([a, b, c, d]) == [] <==> a.None? && b.None? && c.None? && d.None?
  {
    var xs := [a, b, c, d];
    SomesEmpty(xs);
    assert xs[0] == a && xs[1] == b && xs[2] == c && xs[3] == d;
    if a.None? && b.None? && c.None? && d.None? {
      forall k | 0 <= k < |xs|
        ensures xs[k].None?
      {
      }
    }
  }

  /** A one-line list with nothing before its first colon (the list `:`,
      say) passes the account-list checks. */
  lemma NoLoginListAccepted(text: string)
    requires Trim(text) == text && '\n' !in text
    requires ':' in text && Trim(Before(text, ':')) == ""
    ensures ComboError(text).None?
  {
    OneLineAccepted(text);
  }

  /** A trimmed one-line list with a colon passes the account-list checks. */
  lemma OneLineAccepted(text: string)
    requires Trim(text) == text && '\n' !in text && ':' in text
    ensures ComboError(text).None?
  {
    SplitNone(Trim(text), '\n');
    LineAccepted(Trim(text), Split(Trim(text), '\n'));
    ComboErrorNone(text);
  }

  lemma ComboErrorNone(text: string)
    requires Trim(text) != ""
    requires !(forall line :: line in Split(Trim(text), '\n') ==> Trim(line) == "")
    requires !(exists line :: line in Split(Trim(text), '\n') && Trim(line) != "" && ':' !in Trim(line))
    ensures ComboError(text).None?
  {
  }

  /** The one line of such a list is not blank and has a colon. */
  lemma LineAccepted(t: string, lines: seq<string>)
    requires lines == [t] && Trim(t) == t && ':' in t
    ensures t != ""
    ensures !(forall line :: line in lines ==> Trim(line) == "")
    ensures !(exists line :: line in lines && Trim(line) != "" && ':' !in Trim(line))
  {
    assert t in lines;
  }

  /** Yet the parser keeps no entry from such a list, so the start flow
      checks the parsed list again. */
  lemma NoLoginListEmpty(text: string)
    requires Trim(text) == text && '\n' !in text
    requires ':' in text && Trim(Before(text, ':')) == ""
    ensures ParseCombo(text) == []
  {
    SplitNone(text, '\n');
    ParseLineSpec(text);
    NothingFromOneLine(text);
  }

  /** A single line the parser rejects yields no entry. */
  lemma NothingFromOneLine(line: string)
    requires ParseLine(line).None?
    ensures ParseLines([line]) == []
  {
    var m := Map(ParseLine, [line]);
    assert m[0].None? && |m[1..]| == 0;
    assert Somes(m) == Somes(m[1..]);
  }
}

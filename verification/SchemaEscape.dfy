/** Escaping schema text for a template literal (scripts/prebuild-schema.ts:46-56). */
module SchemaEscape {
  import opened Options

  /** `content.replace(/c/g, with)` */
  function ReplaceAll(s: string, c: char, replacement: string): string {
    if s == "" then "" else (if s[0] == c then replacement else [s[0]]) + ReplaceAll(s[1..], c, replacement)
  }

  /** The three passes: backslashes first, then backticks, then dollar signs. */
  function Escape(content: string): string {
    ReplaceAll(ReplaceAll(ReplaceAll(content, '\\', "\\\\"), '`', "\\`"), '$', "\\$")
  }

  predicate Special(c: char) {
    c == '\\' || c == '`' || c == '$'
  }

  /** Each special character behind a backslash of its own. */
  function EscapeEach(s: string): string {
    if s == "" then "" else (if Special(s[0]) then ['\\', s[0]] else [s[0]]) + EscapeEach(s[1..])
  }

  lemma {:induction false} ReplaceAppends(a: string, b: string, c: char, replacement: string)
    ensures ReplaceAll(a + b, c, replacement) == ReplaceAll(a, c, replacement) + ReplaceAll(b, c, replacement)
  {
    if a == "" {
      assert a + b == b;
    } else {
      assert (a + b)[0] == a[0] && (a + b)[1..] == a[1..] + b;
      ReplaceAppends(a[1..], b, c, replacement);
    }
  }

  /** No pass touches what an earlier one wrote: together they escape each character once. */
  lemma {:induction false} PassesAreOne(s: string)
    ensures Escape(s) == EscapeEach(s)
  {
    if s == "" {
    } else {
      PassesAreOne(s[1..]);
      var first := ReplaceAll([s[0]], '\\', "\\\\");
      assert s == [s[0]] + s[1..];
      ReplaceAppends([s[0]], s[1..], '\\', "\\\\");
      ReplaceAppends(first, ReplaceAll(s[1..], '\\', "\\\\"), '`', "\\`");
      var rest := ReplaceAll(ReplaceAll(s[1..], '\\', "\\\\"), '`', "\\`");
      ReplaceAppends(ReplaceAll(first, '`', "\\`"), rest, '$', "\\$");
      OneCharacter(s[0]);
    }
  }

  lemma OneCharacter(c: char)
    ensures Escape([c]) == if Special(c) then ['\\', c] else [c]
  {
    assert ReplaceAll([c], '\\', "\\\\") == if c == '\\' then "\\\\" else [c];
    assert "\\\\"[1..] == "\\" && "\\`"[1..] == "`";
    assert ReplaceAll("\\", '`', "\\`") == "\\" && ReplaceAll("\\", '$', "\\$") == "\\";
    assert ReplaceAll("`", '$', "\\$") == "`";
  }

  function Cons(c: char, rest: Option<string>): Option<string> {
    if rest.Some? then Some([c] + rest.value) else None
  }

  /**
   What a template literal with this text between its backticks evaluates to (ECMA-262 section
   12.9.6); None when the text ends the literal, opens a substitution or is no template text, or
   uses a hexadecimal or Unicode escape, which are not part of this model.
   */
  function TemplateValue(t: string): Option<string> {
    if t == "" then Some("")
    else if t[0] == '`' then None
    else if t[0] == '$' && |t| > 1 && t[1] == '{' then None
    else if t[0] == '\\' then
      if |t| == 1 || t[1] == 'x' || t[1] == 'u' || '1' <= t[1] <= '9' then None
      else if t[1] == '0' then if |t| > 2 && '0' <= t[2] <= '9' then None else Cons('\0', TemplateValue(t[2..]))
      else if t[1] == '\r' && |t| > 2 && t[2] == '\n' then TemplateValue(t[3..])
      else if t[1] == '\r' || t[1] == '\n' || t[1] == '\U{2028}' || t[1] == '\U{2029}' then TemplateValue(t[2..])
      else Cons(SingleEscape(t[1]), TemplateValue(t[2..]))
    else if t[0] == '\r' then Cons('\n', TemplateValue(if |t| > 1 && t[1] == '\n' then t[2..] else t[1..]))
    else Cons(t[0], TemplateValue(t[1..]))
  }

  function SingleEscape(c: char): char {
    match c
    case 'b' => '\U{08}' case 't' => '\t' case 'n' => '\n' case 'v' => '\U{0B}' case 'f' => '\U{0C}' case 'r' => '\r'
    case _ => c
  }

  /** Line ends as a template literal reads them. */
  function UnixNewlines(s: string): string {
    if s == "" then ""
    else if s[0] == '\r' then "\n" + UnixNewlines(if |s| > 1 && s[1] == '\n' then s[2..] else s[1..])
    else [s[0]] + UnixNewlines(s[1..])
  }

  /** The generated literal evaluates to the schema text, up to its carriage returns. */
  lemma {:induction false} EscapedValue(s: string)
    ensures TemplateValue(EscapeEach(s)) == Some(UnixNewlines(s))
    decreases |s|
  {
    if s == "" {
    } else {
      var t := EscapeEach(s);
      if Special(s[0]) {
        assert t[2..] == EscapeEach(s[1..]);
        EscapedValue(s[1..]);
      } else if s[0] == '\r' && |s| > 1 && s[1] == '\n' {
        assert t[1..] == EscapeEach(s[1..]);
        assert t[2..] == EscapeEach(s[1..])[1..] == EscapeEach(s[2..]);
        EscapedValue(s[2..]);
      } else {
        assert t[1..] == EscapeEach(s[1..]);
        EscapedValue(s[1..]);
      }
    }
  }

  lemma {:induction false} NewlinesUnchanged(s: string)
    ensures '\r' !in UnixNewlines(s)
    ensures '\r' !in s ==> UnixNewlines(s) == s
    decreases |s|
  {
    if s == "" {
    } else {
      NewlinesUnchanged(if s[0] == '\r' && |s| > 1 && s[1] == '\n' then s[2..] else s[1..]);
      assert s == [s[0]] + s[1..];
    }
  }

  /** The text survives exactly when it holds no carriage return. */
  lemma RoundTrip(s: string)
    ensures TemplateValue(Escape(s)) == Some(UnixNewlines(s))
    ensures TemplateValue(Escape(s)) == Some(s) <==> '\r' !in s
  {
    PassesAreOne(s);
    EscapedValue(s);
    NewlinesUnchanged(s);
  }

  /** How many backslashes end right before position `i`. */
  function BackslashesBefore(t: string, i: nat): nat
    requires i <= |t|
  {
    if i == 0 || t[i - 1] != '\\' then 0 else 1 + BackslashesBefore(t, i - 1)
  }

  lemma {:induction false} BackslashesShift(a: string, b: string, i: nat)
    requires i <= |b| && BackslashesBefore(a, |a|) % 2 == 0
    ensures BackslashesBefore(a + b, |a| + i) % 2 == BackslashesBefore(b, i) % 2
  {
    if i == 0 {
      SameBackslashes(a, b, |a|);
    } else {
      BackslashesShift(a, b, i - 1);
    }
  }

  lemma {:induction false} SameBackslashes(a: string, b: string, i: nat)
    requires i <= |a|
    ensures BackslashesBefore(a + b, i) == BackslashesBefore(a, i)
  {
    if i == 0 {
    } else {
      SameBackslashes(a, b, i - 1);
    }
  }

  /**
   No backtick and no dollar sign stands unescaped in the result, and its end escapes nothing: the
   literal's own closing backtick closes it.
   */
  lemma {:induction false} NothingOpens(s: string)
    ensures BackslashesBefore(EscapeEach(s), |EscapeEach(s)|) % 2 == 0
    ensures forall i :: 0 <= i < |EscapeEach(s)| && (EscapeEach(s)[i] == '`' || EscapeEach(s)[i] == '$') ==>
      BackslashesBefore(EscapeEach(s), i) % 2 == 1
  {
    if s == "" {
    } else {
      var first, rest := if Special(s[0]) then ['\\', s[0]] else [s[0]], EscapeEach(s[1..]);
      NothingOpens(s[1..]);
      assert BackslashesBefore(first, 1) == if Special(s[0]) then 1 else 0;
      assert |first| == 2 ==> BackslashesBefore(first, 2) == if s[0] == '\\' then 2 else 0;
      BackslashesShift(first, rest, |rest|);
      forall i | 0 <= i < |first + rest| && ((first + rest)[i] == '`' || (first + rest)[i] == '$')
        ensures BackslashesBefore(first + rest, i) % 2 == 1
      {
        if i < |first| {
          SameBackslashes(first, rest, i);
        } else {
          BackslashesShift(first, rest, i - |first|);
        }
      }
    }
  }

  lemma EscapeOpensNothing(s: string)
    ensures var t := Escape(s);
      && BackslashesBefore(t, |t|) % 2 == 0
      && forall i :: 0 <= i < |t| && (t[i] == '`' || t[i] == '$') ==> BackslashesBefore(t, i) % 2 == 1
  {
    PassesAreOne(s);
    NothingOpens(s);
  }
}

/**
 * The reminder message template of the WhatsApp reminder command: every
 * `{$word}` is replaced, in one left-to-right pass, by the value of `word`;
 * an unknown word or a null value leaves the placeholder as written.
 * `word` is a maximal run of PCRE word characters (letters, digits, `_`).
 */
module MessageTemplate {
  import opened Wrappers
  import opened Text

  predicate IsWordChar(c: char) {
    ('a' <= c <= 'z') || ('A' <= c <= 'Z') || ('0' <= c <= '9') || c == '_'
  }

  predicate IsWord(w: string) {
    |w| >= 1 && forall j :: 0 <= j < |w| ==> IsWordChar(w[j])
  }

  /** `p` is one whole placeholder `{$word}`. */
  predicate IsPlaceholder(p: string) {
    |p| >= 4 && p[0] == '{' && p[1] == '$' && p[|p| - 1] == '}' && IsWord(p[2..|p| - 1])
  }

  /** The length of the longest run of word characters at the start of `s`. */
  function WordRun(s: string): (n: nat)
    ensures n <= |s|
    ensures forall j :: 0 <= j < n ==> IsWordChar(s[j])
    ensures n < |s| ==> !IsWordChar(s[n])
  {
    if |s| == 0 || !IsWordChar(s[0]) then 0 else 1 + WordRun(s[1..])
  }

  /** The length of the placeholder the pattern matches at the start of `s`, if any. */
  function PlaceholderLength(s: string): (r: Option<nat>)
    ensures r.Some? ==> 4 <= r.value <= |s| && IsPlaceholder(s[..r.value])
    ensures r.None? ==> forall n :: 0 <= n <= |s| ==> !IsPlaceholder(s[..n])
  {
    if |s| >= 4 && s[0] == '{' && s[1] == '$' then
      var w := WordRun(s[2..]);
      if w >= 1 && 2 + w < |s| && s[2 + w] == '}' then
        assert s[..w + 3][2..w + 2] == s[2..][..w];
        Some(w + 3)
      else
        assert forall n :: 4 <= n <= |s| ==> !IsPlaceholder(s[..n]) by {
          forall n | 4 <= n <= |s| ensures !IsPlaceholder(s[..n]) {
            NotPlaceholder(s, w, n);
          }
        }
        None
    else
      None
  }

  lemma NotPlaceholder(s: string, w: nat, n: nat)
    requires |s| >= 4 && s[0] == '{' && s[1] == '$'
    requires w == WordRun(s[2..]) && !(w >= 1 && 2 + w < |s| && s[2 + w] == '}')
    requires 4 <= n <= |s|
    ensures !IsPlaceholder(s[..n])
  {
    var p := s[..n];
    if n - 3 < w {
      assert p[n - 1] == s[2..][n - 3];
      assert IsWordChar(p[n - 1]);
    } else if n - 3 > w {
      assert p[2..n - 1][w] == s[2..][w];
      assert !IsWordChar(p[2..n - 1][w]);
    } else {
      assert w >= 1;
      assert p[n - 1] == s[2 + w];
    }
  }

  /** What a matched placeholder becomes: `$vars[$word] ?? $whole`. */
  function Replacement(token: string, vars: map<string, Option<string>>): string
    requires |token| >= 3
  {
    var name := token[2..|token| - 1];
    if name in vars && vars[name].Some? then vars[name].value else token
  }

  /** preg_replace_callback('/\{\$(\w+)\}/', ...) over the template. */
  function Substitute(s: string, vars: map<string, Option<string>>): string
    decreases |s|
  {
    if |s| == 0 then ""
    else match PlaceholderLength(s)
      case Some(n) => Replacement(s[..n], vars) + Substitute(s[n..], vars)
      case None => [s[0]] + Substitute(s[1..], vars)
  }

  /** Text with no `{` is left exactly as it is. */
  lemma {:induction false} NoBraceUnchanged(s: string, vars: map<string, Option<string>>)
    requires NoBrace(s)
    ensures Substitute(s, vars) == s
    decreases |s|
  {
    if |s| > 0 {
      NoBraceUnchanged(s[1..], vars);
    }
  }

  /** A character other than `{` is copied and the scan moves on by one. */
  lemma CopiesPlainChar(s: string, vars: map<string, Option<string>>)
    requires |s| > 0 && s[0] != '{'
    ensures Substitute(s, vars) == [s[0]] + Substitute(s[1..], vars)
  {
    assert PlaceholderLength(s).None?;
  }

  /** Literal text before the rest of the template passes through unchanged. */
  lemma {:induction false} LiteralPrefix(lit: string, rest: string, vars: map<string, Option<string>>)
    requires NoBrace(lit)
    ensures Substitute(lit + rest, vars) == lit + Substitute(rest, vars)
    decreases |lit|
  {
    if |lit| == 0 {
      assert lit + rest == rest;
    } else {
      var s := lit + rest;
      assert s[0] == lit[0];
      CopiesPlainChar(s, vars);
      assert s[1..] == lit[1..] + rest;
      LiteralPrefix(lit[1..], rest, vars);
      assert lit == [lit[0]] + lit[1..];
    }
  }

  lemma {:induction false} WordRunOfWord(w: string, rest: string)
    requires forall j :: 0 <= j < |w| ==> IsWordChar(w[j])
    requires |rest| > 0 && !IsWordChar(rest[0])
    ensures WordRun(w + rest) == |w|
    decreases |w|
  {
    if |w| == 0 {
      assert w + rest == rest;
    } else {
      assert (w + rest)[1..] == w[1..] + rest;
      WordRunOfWord(w[1..], rest);
    }
  }

  /** A placeholder whose word has a value is replaced by the value, which is not expanded again;
      one whose word is unknown or null stays as written. */
  lemma PlaceholderSubst(name: string, rest: string, vars: map<string, Option<string>>)
    requires IsWord(name)
    ensures name in vars && vars[name].Some? ==>
      Substitute("{$" + name + "}" + rest, vars) == vars[name].value + Substitute(rest, vars)
    ensures !(name in vars && vars[name].Some?) ==>
      Substitute("{$" + name + "}" + rest, vars) == "{$" + name + "}" + Substitute(rest, vars)
  {
    var token := "{$" + name + "}";
    var s := token + rest;
    assert s[2..] == name + ("}" + rest);
    WordRunOfWord(name, "}" + rest);
    assert s[2 + |name|] == '}';
    assert PlaceholderLength(s) == Some(|name| + 3);
    assert s[..|name| + 3] == token && s[|name| + 3..] == rest;
    assert token[2..|token| - 1] == name;
  }

  predicate NoBrace(s: string) {
    forall j :: 0 <= j < |s| ==> s[j] != '{'
  }

  /** A template of literal text around two placeholders that both have values. */
  lemma TwoPlaceholders(a: string, n1: string, b: string, n2: string, c: string, vars: map<string, Option<string>>)
    requires NoBrace(a) && NoBrace(b) && NoBrace(c) && IsWord(n1) && IsWord(n2)
    requires n1 in vars && vars[n1].Some? && n2 in vars && vars[n2].Some?
    ensures Substitute(a + ("{$" + n1 + "}" + (b + ("{$" + n2 + "}" + c))), vars) ==
            a + (vars[n1].value + (b + (vars[n2].value + c)))
  {
    var v1, v2 := vars[n1].value, vars[n2].value;
    var tail := "{$" + n2 + "}" + c;
    var afterFirst := b + tail;
    calc {
      Substitute(a + ("{$" + n1 + "}" + afterFirst), vars);
      == { LiteralPrefix(a, "{$" + n1 + "}" + afterFirst, vars); }
      a + Substitute("{$" + n1 + "}" + afterFirst, vars);
      == { PlaceholderSubst(n1, afterFirst, vars); }
      a + (v1 + Substitute(afterFirst, vars));
      == { LiteralPrefix(b, tail, vars); }
      a + (v1 + (b + Substitute(tail, vars)));
      == { PlaceholderSubst(n2, c, vars); NoBraceUnchanged(c, vars); }
      a + (v1 + (b + (v2 + c)));
    }
  }

  /** 'Hello {$name}, your appointment is at {$time}.' */
  const DefaultTemplate := "Hello " + ("{$name}" + (", your appointment is at " + ("{$time}" + ".")))

  /** The default template as literal text around the two placeholders. */
  lemma DefaultTemplatePieces()
    ensures DefaultTemplate == "Hello " + ("{$" + "name" + "}" + (", your appointment is at " + ("{$" + "time" + "}" + ".")))
  {
    assert "{$name}" == "{$" + "name" + "}";
    assert "{$time}" == "{$" + "time" + "}";
  }

  lemma DefaultTemplateLiterals()
    ensures NoBrace("Hello ") && NoBrace(", your appointment is at ") && NoBrace(".")
  {
  }

  lemma DefaultTemplateWords()
    ensures IsWord("name") && IsWord("time")
  {
  }

  /** With the default template the message is "Hello <name>, your appointment is at <time>.",
      whatever the two values contain. */
  lemma DefaultTemplateMessage(vars: map<string, Option<string>>, name: string, time: string)
    requires "name" in vars && vars["name"] == Some(name)
    requires "time" in vars && vars["time"] == Some(time)
    ensures Substitute(DefaultTemplate, vars) == "Hello " + (name + (", your appointment is at " + (time + ".")))
  {
    DefaultTemplatePieces();
    DefaultTemplateLiterals();
    DefaultTemplateWords();
    TwoPlaceholders("Hello ", "name", ", your appointment is at ", "time", ".", vars);
  }

  /** `$name`: the client name, or "Customer" when it is null or falsy. */
  function DisplayName(clientName: Option<string>): (r: string)
    ensures OptTruthy(clientName) ==> r == clientName.value
    ensures !OptTruthy(clientName) ==> r == "Customer"
  {
    if OptTruthy(clientName) then clientName.value else "Customer"
  }

  /** `$days`: "3 days" exactly for the 3_days window. */
  function DaysText(window: string): (r: string)
    ensures r == "3 days" <==> window == "3_days"
    ensures r != "3 days" ==> r == "1 day"
  {
    if window == "3_days" then "3 days" else "1 day"
  }

  /** The variables the command offers to the template. */
  function ReminderVars(clientName: Option<string>, time: Option<string>, window: string): (vars: map<string, Option<string>>)
    ensures vars.Keys == {"name", "time", "days"}
    ensures vars["name"] == Some(DisplayName(clientName)) && vars["time"] == time && vars["days"] == Some(DaysText(window))
  {
    map["name" := Some(DisplayName(clientName)), "time" := time, "days" := Some(DaysText(window))]
  }

  /** A placeholder for a word the command does not define (say `{$phone}`) stays in the message. */
  lemma UnknownWordStaysVerbatim(clientName: Option<string>, time: Option<string>, window: string, rest: string)
    ensures Substitute("{$phone}" + rest, ReminderVars(clientName, time, window)) ==
            "{$phone}" + Substitute(rest, ReminderVars(clientName, time, window))
  {
    assert "{$phone}" == "{$" + "phone" + "}";
    assert IsWord("phone");
    PlaceholderSubst("phone", rest, ReminderVars(clientName, time, window));
  }

  /** A null time leaves `{$time}` in the message. */
  lemma NullTimeStaysVerbatim(clientName: Option<string>, window: string, rest: string)
    ensures Substitute("{$time}" + rest, ReminderVars(clientName, None, window)) ==
            "{$time}" + Substitute(rest, ReminderVars(clientName, None, window))
  {
    assert "{$time}" == "{$" + "time" + "}";
    assert IsWord("time");
    PlaceholderSubst("time", rest, ReminderVars(clientName, None, window));
  }
}

/**
 * `_resolve_dynamic_path` of app.py: a product path template such as
 * "/data/out_{year}{month}{day}.txt" is expanded with the fields of a date-time
 * by Python's `str.format` over a fixed table of placeholder names.  Any
 * problem with the template (an unknown name, a stray brace) makes the whole
 * result `None`; a partially expanded path is never returned.
 */
module PathTemplate {
  import opened Wrappers
  import opened Calendar

  /** The date-time field a placeholder stands for (the strftime directive behind it). */
  datatype Component = Year | YearShort | Month | Day | Hour | Minute | Second

  /** The placeholder table: sixteen names, several of them aliases of the same field. */
  const DateVars: map<string, Component> := map[
    "year" := Year, "year_short" := YearShort, "month" := Month, "day" := Day,
    "Hour" := Hour, "hour" := Hour, "Minute" := Minute, "minute" := Minute,
    "Second" := Second, "second" := Second, "DD" := Day, "MM" := Month,
    "YYYY" := Year, "Day" := Day, "Month" := Month, "Year" := Year]

  /**
   * The text a field is replaced with: `%Y` is four digits, every other
   * directive two zero-padded digits, and each reads back as the field's value.
   */
  function ComponentText(c: Component, t: DateTime): (r: string)
    requires ValidDateTime(t)
    ensures c == Year ==> |r| == 4 && DigitsAt(r, 0, 4) && Num4(r, 0) == t.date.year
    ensures c != Year ==> |r| == 2 && DigitsAt(r, 0, 2)
    ensures c == YearShort ==> Num2(r, 0) == t.date.year % 100
    ensures c == Month ==> Num2(r, 0) == t.date.month
    ensures c == Day ==> Num2(r, 0) == t.date.day
    ensures c == Hour ==> Num2(r, 0) == t.hour
    ensures c == Minute ==> Num2(r, 0) == t.minute
    ensures c == Second ==> Num2(r, 0) == t.second
  {
    match c
    case Year => Pad4(t.date.year)
    case YearShort => Pad2(t.date.year % 100)
    case Month => Pad2(t.date.month)
    case Day => Pad2(t.date.day)
    case Hour => Pad2(t.hour)
    case Minute => Pad2(t.minute)
    case Second => Pad2(t.second)
  }

  /** The index of the first '}' at or after `i`, or `|s|` when there is none. */
  function CloseBrace(s: string, i: nat): (r: nat)
    requires i <= |s|
    ensures i <= r <= |s|
    ensures forall k :: i <= k < r ==> s[k] != '}'
    ensures r < |s| ==> s[r] == '}'
    decreases |s| - i
  {
    if i == |s| || s[i] == '}' then i else CloseBrace(s, i + 1)
  }

  function Prepend(p: string, r: Option<string>): Option<string>
  {
    if r.Some? then Some(p + r.value) else None
  }

  /**
   * `template.format(**date_vars)` with its errors turned into `None`: `{{` and
   * `}}` stand for single braces, `{name}` for the table entry `name`; an
   * unknown name (`KeyError`), a '{' that is never closed or a lone '}'
   * (`ValueError`) fails the whole resolution.
   */
  function Resolve(template: string, t: DateTime): (r: Option<string>)
    requires ValidDateTime(t)
    ensures BraceFree(template) ==> r == Some(template)
    decreases |template|
  {
    if template == [] then
      Some([])
    else if template[0] == '{' then
      if |template| > 1 && template[1] == '{' then
        Prepend("{", Resolve(template[2..], t))
      else
        var close := CloseBrace(template, 1);
        if close == |template| then
          None
        else
          var name := template[1..close];
          if name !in DateVars then None
          else Prepend(ComponentText(DateVars[name], t), Resolve(template[close + 1..], t))
    else if template[0] == '}' then
      if |template| > 1 && template[1] == '}' then
        Prepend("}", Resolve(template[2..], t))
      else
        None
    else
      assert [template[0]] + template[1..] == template;
      assert BraceFree(template) ==> BraceFree(template[1..]) by {
        assert forall k :: 0 <= k < |template| - 1 ==> template[1..][k] == template[k + 1];
      }
      Prepend([template[0]], Resolve(template[1..], t))
  }

  /** Text without braces is copied unchanged. */
  predicate BraceFree(s: string)
  {
    forall k :: 0 <= k < |s| ==> s[k] != '{' && s[k] != '}'
  }

  /** Every placeholder name is a non-empty, brace-free word. */
  lemma TableNamesBraceFree(name: string)
    requires name in DateVars
    ensures name != [] && BraceFree(name)
  {
  }

  /** Literal text in front of a template is copied unchanged, and a failure behind it still fails. */
  lemma ResolveLiteral(s: string, rest: string, t: DateTime)
    requires ValidDateTime(t) && BraceFree(s)
    ensures Resolve(s + rest, t) == Prepend(s, Resolve(rest, t))
  {
    ResolveConcat(s, rest, t);
  }

  /** A field of the table is replaced by its date-time text, and resolution goes on after it. */
  lemma ResolveKnownField(name: string, rest: string, t: DateTime)
    requires ValidDateTime(t) && name in DateVars
    ensures Resolve("{" + name + "}" + rest, t) == Prepend(ComponentText(DateVars[name], t), Resolve(rest, t))
  {
    TableNamesBraceFree(name);
    var template := "{" + name + "}" + rest;
    assert template[1] == name[0];
    assert CloseBrace(template, 1) == |name| + 1 by {
      CloseBraceAt(template, 1, |name| + 1);
    }
    assert template[1..|name| + 1] == name;
    assert template[|name| + 2..] == rest;
  }

  /** The first '}' from `i` is at `j` when no '}' lies between them. */
  lemma {:induction false} CloseBraceAt(s: string, i: nat, j: nat)
    requires i <= j < |s| && s[j] == '}'
    requires forall k :: i <= k < j ==> s[k] != '}'
    ensures CloseBrace(s, i) == j
    decreases j - i
  {
    if i < j {
      CloseBraceAt(s, i + 1, j);
    }
  }

  /** Prepending in two steps is prepending the two texts at once. */
  lemma PrependPrepend(p: string, q: string, r: Option<string>)
    ensures Prepend(p, Prepend(q, r)) == Prepend(p + q, r)
  {
    if r.Some? {
      assert p + (q + r.value) == p + q + r.value;
    }
  }

  /** How a template starting with a known `{name}` resolves. */
  lemma ResolveAtField(s: string, close: nat, t: DateTime)
    requires ValidDateTime(t) && |s| > 1 && s[0] == '{' && s[1] != '{'
    requires close == CloseBrace(s, 1) && close < |s| && s[1..close] in DateVars
    ensures Resolve(s, t) == Prepend(ComponentText(DateVars[s[1..close]], t), Resolve(s[close + 1..], t))
  {
  }

  /** The step over `{name}` at the front of a template that resolves, with or without text after it. */
  lemma ResolveFieldHead(p: string, q: string, t: DateTime) returns (skip: nat, head: string)
    requires ValidDateTime(t) && p != [] && p[0] == '{' && !(|p| > 1 && p[1] == '{')
    requires Resolve(p, t).Some?
    ensures 1 <= skip <= |p|
    ensures Resolve(p, t) == Prepend(head, Resolve(p[skip..], t))
    ensures Resolve(p + q, t) == Prepend(head, Resolve((p + q)[skip..], t))
  {
    var pq := p + q;
    var close := CloseBrace(p, 1);
    assert close < |p| && p[1..close] in DateVars;
    var name := p[1..close];
    skip, head := close + 1, ComponentText(DateVars[name], t);
    ResolveAtField(p, close, t);
    assert pq[0] == '{' && pq[1] == p[1];
    assert forall k :: 1 <= k < close ==> pq[k] == p[k];
    CloseBraceAt(pq, 1, close);
    assert pq[1..close] == name;
    ResolveAtField(pq, close, t);
  }

  /** The step over an escaped brace or a plain character at the front of a template that resolves. */
  lemma ResolveCharHead(p: string, q: string, t: DateTime) returns (skip: nat, head: string)
    requires ValidDateTime(t) && p != [] && Resolve(p, t).Some?
    requires p[0] == '{' ==> |p| > 1 && p[1] == '{'
    ensures 1 <= skip <= |p|
    ensures Resolve(p, t) == Prepend(head, Resolve(p[skip..], t))
    ensures Resolve(p + q, t) == Prepend(head, Resolve(p[skip..] + q, t))
  {
    var pq := p + q;
    assert pq[0] == p[0];
    if p[0] == '{' || p[0] == '}' {
      assert |p| > 1;
      assert pq[1] == p[1];
      skip, head := 2, [p[0]];
    } else {
      skip, head := 1, [p[0]];
    }
    assert pq[skip..] == p[skip..] + q;
  }

  /**
   * The first step of resolving a template that resolves: it reads `skip`
   * characters and emits `head`, the same whether or not more text follows.
   */
  lemma ResolveHead(p: string, q: string, t: DateTime) returns (skip: nat, head: string)
    requires ValidDateTime(t) && p != [] && Resolve(p, t).Some?
    ensures 1 <= skip <= |p|
    ensures Resolve(p, t) == Prepend(head, Resolve(p[skip..], t))
    ensures Resolve(p + q, t) == Prepend(head, Resolve(p[skip..] + q, t))
  {
    if p[0] == '{' && !(|p| > 1 && p[1] == '{') {
      skip, head := ResolveFieldHead(p, q, t);
    } else {
      skip, head := ResolveCharHead(p, q, t);
    }
    SliceOfConcat(p, q, skip);
  }

  /** A suffix of `p` followed by `q` is the same suffix of `p + q`. */
  lemma SliceOfConcat(p: string, q: string, i: nat)
    requires i <= |p|
    ensures (p + q)[i..] == p[i..] + q
  {
  }

  /**
   * A template that resolves can be followed by any other: the result is its
   * text in front of whatever the other resolves to, and a failure of the
   * other fails the whole.
   */
  lemma {:induction false} ResolveConcat(p: string, q: string, t: DateTime)
    requires ValidDateTime(t) && Resolve(p, t).Some?
    ensures Resolve(p + q, t) == Prepend(Resolve(p, t).value, Resolve(q, t))
    decreases |p|
  {
    if p == [] {
      assert p + q == q;
      if Resolve(q, t).Some? {
        assert p + Resolve(q, t).value == Resolve(q, t).value;
      }
    } else {
      var skip, head := ResolveHead(p, q, t);
      ResolveConcat(p[skip..], q, t);
      PrependPrepend(head, Resolve(p[skip..], t).value, Resolve(q, t));
    }
  }

  /**
   * A field name that `str.format` reads as a plain key: no format spec
   * (`:`), conversion (`!`), attribute (`.`) or index (`[`).
   */
  predicate PlainName(name: string)
  {
    forall k :: 0 <= k < |name| ==> name[k] != ':' && name[k] != '!' && name[k] != '.' && name[k] != '['
  }

  /**
   * Fail closed: a well-formed placeholder whose name is not in the table makes
   * the whole result `None`, whatever resolvable template precedes it and
   * whatever follows.
   */
  lemma UnknownPlaceholderFailsClosed(pre: string, name: string, post: string, t: DateTime)
    requires ValidDateTime(t) && Resolve(pre, t).Some?
    requires BraceFree(name) && PlainName(name) && name !in DateVars
    ensures Resolve(pre + "{" + name + "}" + post, t) == None
  {
    var field := "{" + name + "}" + post;
    assert pre + "{" + name + "}" + post == pre + field;
    ResolveConcat(pre, field, t);
    assert name != [] ==> field[1] == name[0];
    assert CloseBrace(field, 1) == |name| + 1 by {
      CloseBraceAt(field, 1, |name| + 1);
    }
    assert field[1..|name| + 1] == name;
  }

  /** A known field in front of an unknown one, as in `{year}/{bogus}`: no path at all. */
  lemma UnknownAfterKnownField(known: string, sep: string, name: string, post: string, t: DateTime)
    requires ValidDateTime(t) && known in DateVars && BraceFree(sep)
    requires BraceFree(name) && PlainName(name) && name !in DateVars
    ensures Resolve(Field(known) + sep + Field(name) + post, t) == None
  {
    FieldThen(known, sep, sep, t);
    UnknownPlaceholderFailsClosed(Field(known) + sep, name, post, t);
    FieldConcat(Field(known) + sep, name, post);
  }

  /** Writing the field with `Field` or with its braces spelled out is the same text. */
  lemma FieldConcat(pre: string, name: string, post: string)
    ensures pre + Field(name) + post == pre + "{" + name + "}" + post
  {
  }

  /** The placeholder `{name}`. */
  function Field(name: string): string
  {
    "{" + name + "}"
  }

  /** A known field in front of a template that resolves to `r`. */
  lemma FieldThen(name: string, rest: string, r: string, t: DateTime)
    requires ValidDateTime(t) && name in DateVars && Resolve(rest, t) == Some(r)
    ensures Resolve(Field(name) + rest, t) == Some(ComponentText(DateVars[name], t) + r)
  {
    ResolveKnownField(name, rest, t);
    assert "{" + name + "}" + rest == Field(name) + rest;
  }

  /** Brace-free text in front of a template that resolves to `r`. */
  lemma LiteralThen(s: string, rest: string, r: string, t: DateTime)
    requires ValidDateTime(t) && BraceFree(s) && Resolve(rest, t) == Some(r)
    ensures Resolve(s + rest, t) == Some(s + r)
  {
    ResolveLiteral(s, rest, t);
  }

  /**
   * Three table fields separated by brace-free text resolve to the three
   * field texts separated by the same text.
   */
  lemma ResolveThreeFields(a: string, b: string, c: string, sep: string, t: DateTime)
    requires ValidDateTime(t) && a in DateVars && b in DateVars && c in DateVars && BraceFree(sep)
    ensures Resolve(Field(a) + (sep + (Field(b) + (sep + Field(c)))), t)
         == Some(ComponentText(DateVars[a], t) + (sep + (ComponentText(DateVars[b], t) + (sep + ComponentText(DateVars[c], t)))))
  {
    var ta, tb, tc := ComponentText(DateVars[a], t), ComponentText(DateVars[b], t), ComponentText(DateVars[c], t);
    var empty: string := [];
    assert Field(c) + empty == Field(c) && tc + empty == tc;
    FieldThen(c, empty, empty, t);
    LiteralThen(sep, Field(c), tc, t);
    FieldThen(b, sep + Field(c), sep + tc, t);
    LiteralThen(sep, Field(b) + (sep + Field(c)), tb + (sep + tc), t);
    FieldThen(a, sep + (Field(b) + (sep + Field(c))), sep + (tb + (sep + tc)), t);
  }

  /** `{year}-{month}-{day}` gives the date in `YYYY-MM-DD` form. */
  lemma ResolveDateExample(t: DateTime)
    requires ValidDateTime(t)
    ensures Resolve("{year}-{month}-{day}", t) == Some(FormatDate(t.date))
  {
    DateTemplateShape();
    DateTextShape(t);
    ResolveThreeFields("year", "month", "day", "-", t);
  }

  /** The date template is three fields separated by "-". */
  lemma DateTemplateShape()
    ensures "{year}-{month}-{day}" == Field("year") + ("-" + (Field("month") + ("-" + Field("day"))))
  {
  }

  /** The `YYYY-MM-DD` text of a date is its year, month and day texts separated by "-". */
  lemma DateTextShape(t: DateTime)
    requires ValidDateTime(t)
    ensures FormatDate(t.date) ==
            ComponentText(Year, t) + ("-" + (ComponentText(Month, t) + ("-" + ComponentText(Day, t))))
  {
  }

  /** `{year_short}` on a date in 2024 gives "24". */
  lemma ResolveShortYearExample(t: DateTime)
    requires ValidDateTime(t) && t.date.year == 2024
    ensures Resolve("{year_short}", t) == Some("24")
  {
    assert ComponentText(YearShort, t) + "" == "24";
    ResolveKnownField("year_short", "", t);
    assert "{" + "year_short" + "}" + "" == "{year_short}";
  }

  /** `{bogus}` is not in the table: no path at all. */
  lemma ResolveUnknownExample(t: DateTime)
    requires ValidDateTime(t)
    ensures Resolve("{bogus}", t) == None
  {
    UnknownPlaceholderFailsClosed("", "bogus", "", t);
    assert "" + "{" + "bogus" + "}" + "" == "{bogus}";
  }
}

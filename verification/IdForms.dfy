/** How ids are written in EXPLAIN output, and that the scanner finds every one of them. */
module IdForms {
  import opened IdScanner
  import opened Texts
  import opened Wrappers

  // ----- any lead

  /** The character before the end of a text. */
  function Last(previous: Option<char>, s: string): Option<char> {
    if s == [] then previous else Some(s[|s| - 1])
  }

  /** No text that ends with this lead, and goes on before it, is a lead itself. */
  ghost predicate StandsAlone(x: Syntax, lead: string) {
    forall previous, before :: before != [] ==> !x.lead(previous, before + lead)
  }

  /** The first token does not reach past `before`. */
  lemma StaysBefore(x: Syntax, previous: Option<char>, before: string, lead: string, rest: string)
    requires before != [] && NoDigits(lead, x.digit) && StandsAlone(x, lead) && rest != [] && x.digit(rest[0])
    ensures Taken(x, previous, before + (lead + rest)) <= |before|
  {
    var s := before + (lead + rest);
    var n := Span(s, x.digit, false);
    SpanIsLongest(s, x.digit, false);
    if n < |before| {
      SpanIsLongest(s[n..], x.digit, true);
      assert s[n..][|before| - n] == lead[0];
    } else {
      assert forall i :: |before| <= i < |before| + |lead| ==> s[i] == lead[i - |before|];
      assert s[|before| + |lead|] == rest[0];
      SpanIs(s, |before| + |lead|, x.digit, false);
      assert s[..n] == before + lead;
    }
  }

  lemma ParseGoesOn(x: Syntax, previous: Option<char>, s: string, t: Token)
    requires s != [] && (t == TokenAt(x, previous, s) || t in Later(x, previous, s))
    ensures t in Parse(x, previous, s)
  {
    InCons(TokenAt(x, previous, s), Later(x, previous, s), t);
  }

  lemma InCons<T>(first: T, rest: seq<T>, t: T)
    ensures t in [first] + rest <==> t == first || t in rest
  {
  }

  lemma StartsWithId(x: Syntax, previous: Option<char>, lead: string, raw: string, after: string)
    requires NoDigits(lead, x.digit) && Digits(raw, x.digit) && (after != [] ==> !x.digit(after[0]))
    requires x.lead(previous, lead) && x.closes(At(after, 0))
    ensures TokenAt(x, previous, lead + raw + after) == Id(lead, raw)
  {
    SpansOfId(lead, raw, after, x.digit);
  }

  lemma CutBefore(before: string, rest: string, n: nat)
    requires 1 <= n <= |before|
    ensures (before + rest)[n..] == before[n..] + rest && (before + rest)[n - 1] == before[n - 1]
    ensures Last(Some(before[n - 1]), before[n..]) == Last(None, before)
  {
  }

  /** A lead with digits after it is an id of the line, wherever it stands. */
  lemma {:induction false} FindsId(
    x: Syntax, previous: Option<char>, before: string, lead: string, raw: string, after: string)
    requires NoDigits(lead, x.digit) && Digits(raw, x.digit) && (after != [] ==> !x.digit(after[0]))
    requires StandsAlone(x, lead) && x.lead(Last(previous, before), lead) && x.closes(At(after, 0))
    ensures Id(lead, raw) in Parse(x, previous, before + (lead + raw + after))
    decreases |before|
  {
    var s := before + (lead + raw + after);
    if before == [] {
      assert s == lead + raw + after;
      StartsWithId(x, previous, lead, raw, after);
      ParseGoesOn(x, previous, s, Id(lead, raw));
    } else {
      Associate(before, lead, raw, after);
      assert s == before + (lead + (raw + after));
      StaysBefore(x, previous, before, lead, raw + after);
      var n := Taken(x, previous, s);
      CutBefore(before, lead + raw + after, n);
      FindsId(x, Some(before[n - 1]), before[n..], lead, raw, after);
      ParseGoesOn(x, previous, s, Id(lead, raw));
    }
  }

  lemma {:induction false} IdsHaveLeads(x: Syntax, previous: Option<char>, s: string, t: Token)
    requires t.Id? && t in Parse(x, previous, s)
    ensures exists c :: x.lead(c, t.lead)
    ensures Digits(t.raw, x.digit)
    decreases |s|
  {
    var n := Taken(x, previous, s);
    if t == TokenAt(x, previous, s) {
      TokenIsWellFormed(x, previous, s);
    } else {
      IdsHaveLeads(x, Some(s[n - 1]), s[n..], t);
    }
  }

  // ----- the forms

  /** What the regular expressions rely on in their character classes. */
  ghost predicate UsualClasses(k: Classes) {
    && SaneClasses(k)
    && (forall c :: k.space(c) ==> !k.word(c) && c != '"' && c != ':' && c != '=')
    && (forall c :: c in "logicandeCTEIx" ==> k.word(c) && !k.digit(c))
    && (forall c :: k.digit(c) ==> c != '_' && c != '"' && c != ':' && c != '=' && c != ' ')
  }

  /** The leads of a logical id: `logical_node_id=` where a word can start, or the quoted key, blanks, a colon and
      blanks. */
  lemma LogicalLeads(k: Classes, previous: Option<char>, u: string)
    ensures LogicalLead(k, previous, u) <==>
      || (Boundary(k, previous) && u == "logical_node_id=")
      || exists a, b :: Blank(a, k.space) && Blank(b, k.space) && u == "\"logical_node_id\"" + a + ":" + b
  {
    if n :| 17 <= n < |u| && IsKeyed(k, u, n) {
      KeyedMeans(k, u, n, u[17..n], u[n + 1..]);
    }
    if a, b :| Blank(a, k.space) && Blank(b, k.space) && u == "\"logical_node_id\"" + a + ":" + b {
      KeyedMeans(k, u, 17 + |a|, a, b);
      assert IsKeyed(k, u, 17 + |a|);
    }
  }

  lemma KeyedMeans(k: Classes, u: string, n: nat, a: string, b: string)
    requires 17 <= n < |u|
    ensures IsKeyed(k, u, n) && a == u[17..n] && b == u[n + 1..] ==> u == "\"logical_node_id\"" + a + ":" + b
    ensures u == "\"logical_node_id\"" + a + ":" + b && n == 17 + |a| ==>
      u[..17] == "\"logical_node_id\"" && u[17..n] == a && u[n] == ':' && u[n + 1..] == b
  {
    assert u == u[..17] + u[17..n] + [u[n]] + u[n + 1..];
  }

  lemma CteLeads(k: Classes, previous: Option<char>, u: string)
    ensures CteLead(k, previous, u) <==>
      Boundary(k, previous) && exists b :: Blank(b, k.space) && u == "CTE Index:" + b
  {
    if |u| >= 10 && u[..10] == "CTE Index:" {
      Rejoin(u, 10);
    }
    if b :| Blank(b, k.space) && u == "CTE Index:" + b {
      assert u[..10] == "CTE Index:" && u[10..] == b;
    }
  }

  lemma LettersAreNoDigits(k: Classes)
    requires UsualClasses(k)
    ensures NoDigits("logical_node_id=", k.digit) && NoDigits("\"logical_node_id\"", k.digit)
    ensures NoDigits("CTE Index:", k.digit) && NoDigits(":", k.digit)
  {
  }

  lemma BlanksAreNoDigits(k: Classes, lead: string, blank: string)
    requires UsualClasses(k) && NoDigits(lead, k.digit) && Blank(blank, k.space)
    ensures NoDigits(lead + blank, k.digit)
  {
  }

  lemma PlainKeyStandsAlone(k: Classes)
    requires UsualClasses(k)
    ensures StandsAlone(LogicalIds(k), "logical_node_id=")
  {
    forall previous, before: string | before != []
      ensures !LogicalLead(k, previous, before + "logical_node_id=")
    {
      var u := before + "logical_node_id=";
      assert |u| > 16 && u[|u| - 1] == '=';
    }
  }

  lemma QuotedKeyStandsAlone(k: Classes, rest: string)
    requires UsualClasses(k)
    ensures StandsAlone(LogicalIds(k), "\"logical_node_id\"" + rest)
  {
    forall previous, before: string | before != []
      ensures !LogicalLead(k, previous, before + ("\"logical_node_id\"" + rest))
    {
      QuoteInside(k, previous, before + ("\"logical_node_id\"" + rest), |before|);
    }
  }

  /** A lead has no quote followed by a letter after its first character. */
  lemma QuoteInside(k: Classes, previous: Option<char>, u: string, p: nat)
    requires UsualClasses(k) && 0 < p && p + 1 < |u| && u[p] == '"' && u[p + 1] == 'l'
    ensures !LogicalLead(k, previous, u)
  {
    assert forall i :: 1 <= i < 16 ==> "\"logical_node_id\""[i] != '"';
    if u == "logical_node_id=" {
      assert forall i :: 0 <= i < 16 ==> u[i] != '"';
    } else if n :| 17 <= n < |u| && IsKeyed(k, u, n) {
      QuoteNotKeyed(k, u, n, p);
    }
  }

  lemma QuoteNotKeyed(k: Classes, u: string, n: nat, p: nat)
    requires UsualClasses(k) && 0 < p && p + 1 < |u| && u[p] == '"' && u[p + 1] == 'l' && 17 <= n < |u|
    ensures !IsKeyed(k, u, n)
  {
    if p < 16 {
      assert "\"logical_node_id\""[p] != '"';
      assert u[..17][p] == u[p];
    } else {
      var q := if p == 16 then 17 else p;
      assert q < n ==> u[17..n][q - 17] == u[q];
      assert q > n ==> u[n + 1..][q - n - 1] == u[q];
    }
  }

  lemma CteStandsAlone(k: Classes, b: string)
    requires UsualClasses(k)
    ensures StandsAlone(CteIds(k), "CTE Index:" + b)
  {
    forall previous, before: string | before != []
      ensures !CteLead(k, previous, before + ("CTE Index:" + b))
    {
      var u, p := before + ("CTE Index:" + b), |before|;
      assert u[p] == 'C';
      if p < 10 {
        assert "CTE Index:"[p] != 'C';
        assert u[..10][p] == u[p];
      } else {
        assert u[10..][p - 10] == u[p];
      }
    }
  }

  /** Every logical id of a line is found: after `logical_node_id=` where a word can start, and after the quoted key
      with any blanks around the colon. */
  lemma LogicalIdsAreFound(k: Classes, before: string, raw: string, after: string, a: string, b: string)
    requires UsualClasses(k) && Digits(raw, k.digit) && (after != [] ==> !k.digit(after[0]))
    requires Blank(a, k.space) && Blank(b, k.space)
    ensures Boundary(k, Last(None, before)) ==>
      Id("logical_node_id=", raw) in Parse(LogicalIds(k), None, before + ("logical_node_id=" + raw + after))
    ensures var key := "\"logical_node_id\"" + (a + ":" + b);
      Id(key, raw) in Parse(LogicalIds(k), None, before + (key + raw + after))
  {
    LettersAreNoDigits(k);
    PlainKeyStandsAlone(k);
    if Boundary(k, Last(None, before)) {
      FindsId(LogicalIds(k), None, before, "logical_node_id=", raw, after);
    }
    var key := "\"logical_node_id\"" + (a + ":" + b);
    QuotedKeyStandsAlone(k, a + ":" + b);
    assert key == "\"logical_node_id\"" + a + ":" + b;
    LogicalLeads(k, Last(None, before), key);
    BlanksAreNoDigits(k, "\"logical_node_id\"", a);
    BlanksAreNoDigits(k, "\"logical_node_id\"" + a + ":", b);
    FindsId(LogicalIds(k), None, before, key, raw, after);
  }

  /** Every CTE id of a line is found where a word can start and its digits end a word. */
  lemma CteIdsAreFound(k: Classes, before: string, raw: string, after: string, b: string)
    requires UsualClasses(k) && Digits(raw, k.digit) && Blank(b, k.space)
    requires Boundary(k, Last(None, before)) && Boundary(k, At(after, 0))
    ensures Id("CTE Index:" + b, raw) in Parse(CteIds(k), None, before + ("CTE Index:" + b + raw + after))
  {
    LettersAreNoDigits(k);
    CteStandsAlone(k, b);
    CteLeads(k, Last(None, before), "CTE Index:" + b);
    BlanksAreNoDigits(k, "CTE Index:", b);
    FindsId(CteIds(k), None, before, "CTE Index:" + b, raw, after);
  }

  /** Nothing else is found: an id of a line has one of the leads and digits only. */
  lemma OnlyIdsAreFound(k: Classes, line: string, t: Token)
    requires t.Id?
    ensures t in Parse(LogicalIds(k), None, line) ==>
      && Digits(t.raw, k.digit)
      && (t.lead == "logical_node_id="
          || exists a, b :: Blank(a, k.space) && Blank(b, k.space) && t.lead == "\"logical_node_id\"" + a + ":" + b)
    ensures t in Parse(CteIds(k), None, line) ==>
      Digits(t.raw, k.digit) && exists b :: Blank(b, k.space) && t.lead == "CTE Index:" + b
  {
    if t in Parse(LogicalIds(k), None, line) {
      IdsHaveLeads(LogicalIds(k), None, line, t);
      var c :| LogicalIds(k).lead(c, t.lead);
      LogicalLeads(k, c, t.lead);
    }
    if t in Parse(CteIds(k), None, line) {
      IdsHaveLeads(CteIds(k), None, line, t);
      var c :| CteIds(k).lead(c, t.lead);
      CteLeads(k, c, t.lead);
    }
  }
}

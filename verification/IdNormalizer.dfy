/** Alpha-renaming of ids across the lines of a plan: each id becomes the number of its first
    appearance. */
module IdNormalizer {
  import opened IdScanner
  import opened Numerals
  import opened Texts
  import opened Wrappers

  // ----- numbering ids by first appearance

  /** `canonical_ids.setdefault(id, len(canonical_ids) + 1)` */
  function Learned(known: map<string, nat>, id: string): map<string, nat> {
    if id in known then known else known[id := |known| + 1]
  }

  function LearnedAll(known: map<string, nat>, ids: seq<string>): map<string, nat>
    decreases |ids|
  {
    if ids == [] then known else LearnedAll(Learned(known, ids[0]), ids[1..])
  }

  function Numbers(known: map<string, nat>, ids: seq<string>): (numbers: seq<nat>)
    ensures |numbers| == |ids|
    decreases |ids|
  {
    if ids == [] then []
    else
      var next := Learned(known, ids[0]);
      [next[ids[0]]] + Numbers(next, ids[1..])
  }

  /** Numbers are given out one by one, to one id each. */
  ghost predicate Numbering(known: map<string, nat>) {
    && (forall id :: id in known ==> 1 <= known[id] <= |known|)
    && (forall a, b :: a in known && b in known && known[a] == known[b] ==> a == b)
  }

  ghost predicate Extends(known: map<string, nat>, later: map<string, nat>) {
    forall id :: id in known ==> id in later && later[id] == known[id]
  }

  lemma LearningOne(known: map<string, nat>, id: string)
    requires Numbering(known)
    ensures Numbering(Learned(known, id)) && Extends(known, Learned(known, id)) && id in Learned(known, id)
  {
  }

  lemma {:induction false} LearningAll(known: map<string, nat>, ids: seq<string>)
    requires Numbering(known)
    ensures Numbering(LearnedAll(known, ids)) && Extends(known, LearnedAll(known, ids))
    decreases |ids|
  {
    if ids != [] {
      LearningOne(known, ids[0]);
      LearningAll(Learned(known, ids[0]), ids[1..]);
    }
  }

  /** Every id gets the number it has at the end. */
  lemma {:induction false} NumbersLast(known: map<string, nat>, ids: seq<string>, i: nat)
    requires Numbering(known) && i < |ids|
    ensures ids[i] in LearnedAll(known, ids) && Numbers(known, ids)[i] == LearnedAll(known, ids)[ids[i]]
    decreases |ids|
  {
    var next := Learned(known, ids[0]);
    LearningOne(known, ids[0]);
    if i == 0 {
      LearningAll(next, ids[1..]);
    } else {
      NumbersLast(next, ids[1..], i - 1);
    }
  }

  /** Equal numbers exactly for equal ids. */
  lemma NumbersTellIdsApart(ids: seq<string>, i: nat, j: nat)
    requires i < |ids| && j < |ids|
    ensures Numbers(map[], ids)[i] == Numbers(map[], ids)[j] <==> ids[i] == ids[j]
  {
    LearningAll(map[], ids);
    NumbersLast(map[], ids, i);
    NumbersLast(map[], ids, j);
  }

  function Elements(ids: seq<string>): set<string> {
    set id | id in ids
  }

  lemma {:induction false} LearnsElements(known: map<string, nat>, ids: seq<string>)
    ensures LearnedAll(known, ids).Keys == known.Keys + Elements(ids)
    decreases |ids|
  {
    if ids != [] {
      LearnsElements(Learned(known, ids[0]), ids[1..]);
      assert ids == [ids[0]] + ids[1..];
    }
  }

  /** A new id gets the next number, and an id seen before the number it got then. */
  lemma NumberedByFirstAppearance(ids: seq<string>, i: nat)
    requires i < |ids|
    ensures ids[i] !in ids[..i] ==> Numbers(map[], ids)[i] == |Elements(ids[..i])| + 1
    ensures forall j :: 0 <= j < i && ids[j] == ids[i] ==> Numbers(map[], ids)[i] == Numbers(map[], ids)[j]
  {
    forall j: nat | j < i { NumbersTellIdsApart(ids, i, j); }
    var known := LearnedAll(map[], ids[..i]);
    LearnsElements(map[], ids[..i]);
    assert known.Keys == Elements(ids[..i]) && |known| == |known.Keys|;
    NumbersConcat(map[], ids[..i], ids[i..]);
    Rejoin(ids, i);
    assert ids[i..][0] == ids[i];
  }

  ghost predicate OneToOne<A, B>(f: map<A, B>) {
    forall a, b :: a in f && b in f && f[a] == f[b] ==> a == b
  }

  /** A one-to-one renaming of the ids of one list that gives the other. */
  ghost predicate Renames(f: map<string, string>, ids: seq<string>, others: seq<string>) {
    && |ids| == |others| && OneToOne(f)
    && (forall id :: id in f <==> id in ids)
    && (forall i :: 0 <= i < |ids| ==> ids[i] in f && f[ids[i]] == others[i])
  }

  /** One numbering is the other one with its ids renamed. */
  ghost predicate Mirrors(f: map<string, string>, known: map<string, nat>, other: map<string, nat>) {
    && |known| == |other|
    && (forall id :: id in known ==> id in f && f[id] in other && other[f[id]] == known[id])
    && (forall id :: id in other ==> exists k :: k in known && k in f && f[k] == id)
  }

  lemma MirroredStep(f: map<string, string>, known: map<string, nat>, other: map<string, nat>, id: string)
    requires Mirrors(f, known, other) && OneToOne(f) && id in f
    ensures Mirrors(f, Learned(known, id), Learned(other, f[id]))
    ensures Learned(known, id)[id] == Learned(other, f[id])[f[id]]
  {
    assert id in known <==> f[id] in other;
    assert id !in known ==> |Learned(known, id)| == |known| + 1 && |Learned(other, f[id])| == |other| + 1;
  }

  lemma {:induction false} RenamingKeepsNumbers(
    f: map<string, string>, known: map<string, nat>, other: map<string, nat>, ids: seq<string>, others: seq<string>)
    requires Mirrors(f, known, other) && OneToOne(f) && |ids| == |others|
    requires forall i :: 0 <= i < |ids| ==> ids[i] in f && f[ids[i]] == others[i]
    ensures Numbers(known, ids) == Numbers(other, others)
    decreases |ids|
  {
    if ids != [] {
      MirroredStep(f, known, other, ids[0]);
      RenamingKeepsNumbers(f, Learned(known, ids[0]), Learned(other, others[0]), ids[1..], others[1..]);
    }
  }

  ghost function IndexOf(ids: seq<string>, id: string): (i: nat)
    requires id in ids
    ensures i < |ids| && ids[i] == id
  {
    var i :| 0 <= i < |ids| && ids[i] == id; i
  }

  /** Two lists of ids get the same numbers exactly when a one-to-one renaming relates them. */
  lemma NumbersAreCanonical(ids: seq<string>, others: seq<string>)
    ensures Numbers(map[], ids) == Numbers(map[], others) <==> exists f :: Renames(f, ids, others)
  {
    if f :| Renames(f, ids, others) {
      RenamingKeepsNumbers(f, map[], map[], ids, others);
    }
    if Numbers(map[], ids) == Numbers(map[], others) {
      assert |ids| == |Numbers(map[], ids)| == |others|;
      forall i, j | 0 <= i < |ids| && 0 <= j < |ids|
        ensures ids[i] == ids[j] <==> others[i] == others[j]
      {
        NumbersTellIdsApart(ids, i, j);
        NumbersTellIdsApart(others, i, j);
      }
      var f := map id | id in ids :: others[IndexOf(ids, id)];
      assert Renames(f, ids, others);
    }
  }

  lemma {:induction false} NumbersConcat(known: map<string, nat>, ids: seq<string>, more: seq<string>)
    ensures Numbers(known, ids + more) == Numbers(known, ids) + Numbers(LearnedAll(known, ids), more)
    ensures LearnedAll(known, ids + more) == LearnedAll(LearnedAll(known, ids), more)
    decreases |ids|
  {
    if ids == [] {
      assert ids + more == more;
    } else {
      assert (ids + more)[1..] == ids[1..] + more && (ids + more)[0] == ids[0];
      NumbersConcat(Learned(known, ids[0]), ids[1..], more);
    }
  }

  // ----- lines with their ids replaced

  /** Logical ids become a number, CTE ids a number in angle brackets. */
  datatype Style = Logical | Cte

  function Written(style: Style, number: nat): string {
    match style case Logical => Decimals(number) case Cte => "<cte-" + Decimals(number) + ">"
  }

  function IdsOf(tokens: seq<Token>): seq<string> {
    if tokens == [] then []
    else (if tokens[0].Id? then [tokens[0].raw] else []) + IdsOf(tokens[1..])
  }

  /** A line with the given numbers for its ids. */
  function Filled(style: Style, tokens: seq<Token>, numbers: seq<nat>): string
    requires |numbers| == |IdsOf(tokens)|
  {
    if tokens == [] then []
    else if tokens[0].Plain? then [tokens[0].c] + Filled(style, tokens[1..], numbers)
    else tokens[0].lead + Written(style, numbers[0]) + Filled(style, tokens[1..], numbers[1..])
  }

  function Parsed(x: Syntax, line: string): seq<Token> {
    Parse(x, None, line)
  }

  function AllIds(x: Syntax, lines: seq<string>): seq<string> {
    if lines == [] then [] else IdsOf(Parsed(x, lines[0])) + AllIds(x, lines[1..])
  }

  function FilledLine(x: Syntax, style: Style, known: map<string, nat>, line: string): string {
    var tokens := Parsed(x, line);
    Filled(style, tokens, Numbers(known, IdsOf(tokens)))
  }

  function FilledLines(x: Syntax, style: Style, known: map<string, nat>, lines: seq<string>): (r: seq<string>)
    ensures |r| == |lines|
    decreases |lines|
  {
    if lines == [] then []
    else
      [FilledLine(x, style, known, lines[0])]
      + FilledLines(x, style, LearnedAll(known, IdsOf(Parsed(x, lines[0]))), lines[1..])
  }

  /** `normalize_explain_logical_ids` and `normalize_explain_cte_ids` */
  function Normalized(x: Syntax, style: Style, lines: seq<string>): seq<string> {
    FilledLines(x, style, map[], lines)
  }

  // ----- numbers can be read back

  predicate NoDecimal(c: Option<char>) {
    c.Some? ==> !('0' <= c.value <= '9')
  }

  lemma NumeralEnds(s: string, x: string, k: nat)
    requires IsDecimal(s) && NoDecimal(At(x, 0))
    ensures k < |s| ==> '0' <= (s + x)[k] <= '9'
    ensures NoDecimal(At(s + x, |s|))
  {
  }

  lemma NumeralsArePrefixCode(m: nat, n: nat, x: string, y: string)
    requires Decimals(m) + x == Decimals(n) + y && NoDecimal(At(x, 0)) && NoDecimal(At(y, 0))
    ensures m == n && x == y
  {
    var s, t := Decimals(m), Decimals(n);
    NumeralEnds(s, x, |t|);
    NumeralEnds(t, y, |s|);
    Cut(s, x, t, y);
    DecimalsInjective(m, n);
  }

  lemma WrittenIsPrefixCode(style: Style, m: nat, n: nat, x: string, y: string)
    requires Written(style, m) + x == Written(style, n) + y && NoDecimal(At(x, 0)) && NoDecimal(At(y, 0))
    ensures m == n && x == y
  {
    match style
    case Logical => NumeralsArePrefixCode(m, n, x, y);
    case Cte =>
      Associate("<cte-", Decimals(m), ">", x);
      Associate("<cte-", Decimals(n), ">", y);
      Cut("<cte-", Decimals(m) + (">" + x), "<cte-", Decimals(n) + (">" + y));
      NumeralsArePrefixCode(m, n, ">" + x, ">" + y);
      Cut(">", x, ">", y);
  }

  lemma FirstOfFilled(style: Style, tokens: seq<Token>, numbers: seq<nat>, digit: char -> bool)
    requires |numbers| == |IdsOf(tokens)| && WellFormed(tokens, digit)
    ensures At(Filled(style, tokens, numbers), 0) == First(tokens)
  {
  }

  lemma {:induction false} SkeletonsHaveAsManyIds(a: seq<Token>, b: seq<Token>)
    requires SameSkeleton(a, b)
    ensures |IdsOf(a)| == |IdsOf(b)|
    decreases |a|
  {
    if a != [] {
      TailsAreAlike(a, b);
      SkeletonsHaveAsManyIds(a[1..], b[1..]);
    }
  }

  /** With the same text around the ids, a filled line determines its numbers. */
  lemma {:induction false} FilledIsUnique(
    style: Style, a: seq<Token>, b: seq<Token>, m: seq<nat>, n: seq<nat>, x: Syntax)
    requires Sane(x) && SameSkeleton(a, b) && WellFormed(a, x.digit) && WellFormed(b, x.digit)
    requires |m| == |IdsOf(a)| && |n| == |IdsOf(b)|
    ensures Filled(style, a, m) == Filled(style, b, n) <==> m == n
    decreases |a|
  {
    if a != [] {
      TailsAreAlike(a, b);
      if a[0].Plain? {
        FilledIsUnique(style, a[1..], b[1..], m, n, x);
        if Filled(style, a, m) == Filled(style, b, n) {
          Cut([a[0].c], Filled(style, a[1..], m), [a[0].c], Filled(style, b[1..], n));
        }
      } else {
        FilledIsUnique(style, a[1..], b[1..], m[1..], n[1..], x);
        IdIsUnique(style, a, b, m, n, x);
      }
    }
  }

  lemma IdIsUnique(style: Style, a: seq<Token>, b: seq<Token>, m: seq<nat>, n: seq<nat>, x: Syntax)
    requires Sane(x) && SameSkeleton(a, b) && WellFormed(a, x.digit) && WellFormed(b, x.digit)
    requires a != [] && a[0].Id? && |m| == |IdsOf(a)| && |n| == |IdsOf(b)|
    requires Filled(style, a[1..], m[1..]) == Filled(style, b[1..], n[1..]) <==> m[1..] == n[1..]
    ensures Filled(style, a, m) == Filled(style, b, n) <==> m == n
  {
    var u, v := Filled(style, a[1..], m[1..]), Filled(style, b[1..], n[1..]);
    var lead := a[0].lead;
    Regroup(lead, Written(style, m[0]), u);
    Regroup(lead, Written(style, n[0]), v);
    Rejoin(m, 1);
    Rejoin(n, 1);
    if Filled(style, a, m) == Filled(style, b, n) {
      Cut(lead, Written(style, m[0]) + u, lead, Written(style, n[0]) + v);
      FirstOfFilled(style, a[1..], m[1..], x.digit);
      FirstOfFilled(style, b[1..], n[1..], x.digit);
      WrittenIsPrefixCode(style, m[0], n[0], u, v);
    }
  }

  // ----- canonical forms

  /** Line by line the same text around the ids. */
  ghost predicate SameText(x: Syntax, lines: seq<string>, others: seq<string>) {
    |lines| == |others|
    && forall i :: 0 <= i < |lines| ==> SameSkeleton(Parsed(x, lines[i]), Parsed(x, others[i]))
  }

  lemma {:induction false} FilledLinesAgree(
    x: Syntax, style: Style, known: map<string, nat>, other: map<string, nat>, lines: seq<string>, others: seq<string>)
    requires Sane(x) && SameText(x, lines, others)
    ensures FilledLines(x, style, known, lines) == FilledLines(x, style, other, others)
      <==> Numbers(known, AllIds(x, lines)) == Numbers(other, AllIds(x, others))
    decreases |lines|
  {
    if lines != [] {
      var a, b := Parsed(x, lines[0]), Parsed(x, others[0]);
      var known', other' := LearnedAll(known, IdsOf(a)), LearnedAll(other, IdsOf(b));
      FilledLinesAgree(x, style, known', other', lines[1..], others[1..]);
      ParseIsWellFormed(x, None, lines[0]);
      ParseIsWellFormed(x, None, others[0]);
      FilledIsUnique(style, a, b, Numbers(known, IdsOf(a)), Numbers(other, IdsOf(b)), x);
      SkeletonsHaveAsManyIds(a, b);
      NumbersConcat(known, IdsOf(a), AllIds(x, lines[1..]));
      NumbersConcat(other, IdsOf(b), AllIds(x, others[1..]));
      Cut(Numbers(known, IdsOf(a)), Numbers(known', AllIds(x, lines[1..])),
                 Numbers(other, IdsOf(b)), Numbers(other', AllIds(x, others[1..])));
      Cut([FilledLine(x, style, known, lines[0])], FilledLines(x, style, known', lines[1..]),
                 [FilledLine(x, style, other, others[0])], FilledLines(x, style, other', others[1..]));
    }
  }

  /** Plans with the same text around their ids normalize to the same lines exactly when one
      one-to-one renaming, the same for all lines, turns the ids of one into those of the other. */
  lemma NormalFormsAreCanonical(x: Syntax, style: Style, lines: seq<string>, others: seq<string>)
    requires Sane(x) && SameText(x, lines, others)
    ensures Normalized(x, style, lines) == Normalized(x, style, others)
      <==> exists f :: Renames(f, AllIds(x, lines), AllIds(x, others))
  {
    FilledLinesAgree(x, style, map[], map[], lines, others);
    NumbersAreCanonical(AllIds(x, lines), AllIds(x, others));
  }

  // ----- what a normalized plan looks like

  /** The tokens of a line whose ids became numbers. */
  function Renumbered(style: Style, tokens: seq<Token>, numbers: seq<nat>): (r: seq<Token>)
    requires |numbers| == |IdsOf(tokens)|
    decreases |tokens|
  {
    if tokens == [] then []
    else if tokens[0].Plain? then [tokens[0]] + Renumbered(style, tokens[1..], numbers)
    else [Id(tokens[0].lead, Written(style, numbers[0]))] + Renumbered(style, tokens[1..], numbers[1..])
  }

  function WrittenAll(style: Style, numbers: seq<nat>): seq<string> {
    seq(|numbers|, i requires 0 <= i < |numbers| => Written(style, numbers[i]))
  }

  /** The text of a line with its ids written as numbers: the text around them stays. */
  lemma {:induction false} RenumberedText(style: Style, tokens: seq<Token>, numbers: seq<nat>)
    requires |numbers| == |IdsOf(tokens)|
    ensures var r := Renumbered(style, tokens, numbers);
      SameSkeleton(tokens, r) && Render(r) == Filled(style, tokens, numbers)
    decreases |tokens|
  {
    if tokens != [] {
      var rest := if tokens[0].Plain? then numbers else numbers[1..];
      var r := Renumbered(style, tokens[1..], rest);
      RenumberedText(style, tokens[1..], rest);
      var t := if tokens[0].Plain? then tokens[0] else Id(tokens[0].lead, Written(style, numbers[0]));
      RenderCons(t, r);
      SkeletonCons(tokens, t, r);
    }
  }

  lemma {:induction false} RenumberedLine(tokens: seq<Token>, numbers: seq<nat>, x: Syntax)
    requires |numbers| == |IdsOf(tokens)| && WellFormed(tokens, x.digit) && Sane(x)
    ensures var r := Renumbered(Logical, tokens, numbers); WellFormed(r, x.digit) && First(r) == First(tokens)
    decreases |tokens|
  {
    if tokens != [] {
      var rest := if tokens[0].Plain? then numbers else numbers[1..];
      var r := Renumbered(Logical, tokens[1..], rest);
      RenumberedLine(tokens[1..], rest, x);
      var t := if tokens[0].Plain? then tokens[0] else Id(tokens[0].lead, Decimals(numbers[0]));
      ConsIsWellFormed(t, r, x.digit);
    }
  }

  lemma SkeletonCons(tokens: seq<Token>, t: Token, r: seq<Token>)
    requires tokens != [] && SameSkeleton(tokens[1..], r)
    requires t == tokens[0] || (t.Id? && tokens[0].Id? && t.lead == tokens[0].lead)
    ensures SameSkeleton(tokens, [t] + r)
  {
  }

  lemma {:induction false} IdsOfRenumbered(style: Style, tokens: seq<Token>, numbers: seq<nat>)
    requires |numbers| == |IdsOf(tokens)|
    ensures IdsOf(Renumbered(style, tokens, numbers)) == WrittenAll(style, numbers)
    decreases |tokens|
  {
    if tokens != [] {
      var r := Renumbered(style, tokens, numbers);
      if tokens[0].Plain? {
        IdsOfRenumbered(style, tokens[1..], numbers);
        assert r[1..] == Renumbered(style, tokens[1..], numbers);
      } else {
        IdsOfRenumbered(style, tokens[1..], numbers[1..]);
        assert r[1..] == Renumbered(style, tokens[1..], numbers[1..]);
        Rejoin(numbers, 1);
        assert WrittenAll(style, numbers) == [Written(style, numbers[0])] + WrittenAll(style, numbers[1..]);
      }
    }
  }

  function IdsOfLines(lines: seq<seq<Token>>): seq<string> {
    if lines == [] then [] else IdsOf(lines[0]) + IdsOfLines(lines[1..])
  }

  function RenderLines(lines: seq<seq<Token>>): seq<string> {
    if lines == [] then [] else [Render(lines[0])] + RenderLines(lines[1..])
  }

  /** Line by line the same text around the ids. */
  ghost predicate SameLines(x: Syntax, lines: seq<string>, replaced: seq<seq<Token>>) {
    if lines == [] then replaced == []
    else replaced != [] && SameSkeleton(Parsed(x, lines[0]), replaced[0]) && SameLines(x, lines[1..], replaced[1..])
  }

  /** The result keeps each line around its ids, and the ids of all lines together become their numbers. */
  ghost predicate IsRenumbered(
    x: Syntax, style: Style, known: map<string, nat>, lines: seq<string>, result: seq<string>,
    replaced: seq<seq<Token>>)
  {
    && SameLines(x, lines, replaced) && result == RenderLines(replaced)
    && IdsOfLines(replaced) == WrittenAll(style, Numbers(known, AllIds(x, lines)))
  }

  lemma {:induction false} LinesAreRenumbered(x: Syntax, style: Style, known: map<string, nat>, lines: seq<string>)
    returns (replaced: seq<seq<Token>>)
    ensures IsRenumbered(x, style, known, lines, FilledLines(x, style, known, lines), replaced)
    decreases |lines|
  {
    replaced := [];
    if lines != [] {
      var tokens := Parsed(x, lines[0]);
      var numbers, next := Numbers(known, IdsOf(tokens)), LearnedAll(known, IdsOf(tokens));
      var rest := LinesAreRenumbered(x, style, next, lines[1..]);
      var first := Renumbered(style, tokens, numbers);
      RenumberedText(style, tokens, numbers);
      IdsOfRenumbered(style, tokens, numbers);
      replaced := [first] + rest;
      assert replaced[1..] == rest;
      NumbersConcat(known, IdsOf(tokens), AllIds(x, lines[1..]));
      WrittenConcat(style, numbers, Numbers(next, AllIds(x, lines[1..])));
    }
  }

  // ----- normalizing twice

  /** A normalized line holds the ids it was given, in the same text. */
  lemma NormalizedLine(x: Syntax, known: map<string, nat>, line: string)
    requires Sane(x)
    ensures var filled, ids := FilledLine(x, Logical, known, line), IdsOf(Parsed(x, line));
      && SameSkeleton(Parsed(x, line), Parsed(x, filled))
      && IdsOf(Parsed(x, filled)) == WrittenAll(Logical, Numbers(known, ids))
  {
    var tokens := Parsed(x, line);
    var numbers := Numbers(known, IdsOf(tokens));
    ParseIsWellFormed(x, None, line);
    RenumberedLine(tokens, numbers, x);
    RenumberedText(Logical, tokens, numbers);
    IdsOfRenumbered(Logical, tokens, numbers);
    ReplacedParse(x, None, None, line, Renumbered(Logical, tokens, numbers));
  }

  lemma {:induction false} NormalizedLines(x: Syntax, known: map<string, nat>, lines: seq<string>)
    requires Sane(x)
    ensures var filled := FilledLines(x, Logical, known, lines);
      SameText(x, lines, filled) && AllIds(x, filled) == WrittenAll(Logical, Numbers(known, AllIds(x, lines)))
    decreases |lines|
  {
    if lines != [] {
      var ids := IdsOf(Parsed(x, lines[0]));
      var known' := LearnedAll(known, ids);
      var first, rest := FilledLine(x, Logical, known, lines[0]), FilledLines(x, Logical, known', lines[1..]);
      NormalizedLine(x, known, lines[0]);
      NormalizedLines(x, known', lines[1..]);
      NumbersConcat(known, ids, AllIds(x, lines[1..]));
      AllIdsCons(x, first, rest);
      WrittenConcat(Logical, Numbers(known, ids), Numbers(known', AllIds(x, lines[1..])));
      SameTextCons(x, lines, first, rest);
    }
  }

  lemma AllIdsCons(x: Syntax, first: string, rest: seq<string>)
    ensures AllIds(x, [first] + rest) == IdsOf(Parsed(x, first)) + AllIds(x, rest)
  {
  }

  lemma WrittenConcat(style: Style, m: seq<nat>, n: seq<nat>)
    ensures WrittenAll(style, m + n) == WrittenAll(style, m) + WrittenAll(style, n)
  {
  }

  lemma SameTextCons(x: Syntax, lines: seq<string>, first: string, rest: seq<string>)
    requires lines != [] && SameSkeleton(Parsed(x, lines[0]), Parsed(x, first)) && SameText(x, lines[1..], rest)
    ensures SameText(x, lines, [first] + rest)
  {
  }

  /** Numerals of the numbers are the ids under another name. */
  lemma NumeralsRename(ids: seq<string>)
    ensures exists f :: Renames(f, ids, WrittenAll(Logical, Numbers(map[], ids)))
  {
    var known := LearnedAll(map[], ids);
    LearningAll(map[], ids);
    forall i | 0 <= i < |ids|
      ensures ids[i] in known && Numbers(map[], ids)[i] == known[ids[i]]
    {
      NumbersLast(map[], ids, i);
    }
    var f := map id | id in ids :: Decimals(known[id]);
    forall a, b | a in f && b in f && f[a] == f[b]
      ensures a == b
    {
      DecimalsInjective(known[a], known[b]);
    }
    assert Renames(f, ids, WrittenAll(Logical, Numbers(map[], ids)));
  }

  /** Normalizing logical ids twice changes nothing. */
  lemma LogicalIsIdempotent(x: Syntax, lines: seq<string>)
    requires Sane(x)
    ensures Normalized(x, Logical, Normalized(x, Logical, lines)) == Normalized(x, Logical, lines)
  {
    NormalizedLines(x, map[], lines);
    NumeralsRename(AllIds(x, lines));
    NormalFormsAreCanonical(x, Logical, lines, Normalized(x, Logical, lines));
  }

  // ----- the loops

  /** What remains of a line, with the numbers still to come. */
  ghost function Pending(x: Syntax, style: Style, known: map<string, nat>, c: Option<char>, s: string): string {
    var tokens := Parse(x, c, s);
    Filled(style, tokens, Numbers(known, IdsOf(tokens)))
  }

  function Next(t: Token, known: map<string, nat>): (next: map<string, nat>)
    ensures t.Id? ==> t.raw in next
  {
    if t.Id? then Learned(known, t.raw) else known
  }

  function Piece(style: Style, t: Token, known: map<string, nat>): string
    requires t.Id? ==> t.raw in known
  {
    if t.Id? then t.lead + Written(style, known[t.raw]) else [t.c]
  }

  lemma PendingStep(x: Syntax, style: Style, known: map<string, nat>, c: Option<char>, s: string)
    requires s != []
    ensures var t, n := TokenAt(x, c, s), Taken(x, c, s); var next := Next(t, known);
      && Pending(x, style, known, c, s) == Piece(style, t, next) + Pending(x, style, next, Some(s[n - 1]), s[n..])
      && LearnedAll(known, IdsOf(Parse(x, c, s))) == LearnedAll(next, IdsOf(Parse(x, Some(s[n - 1]), s[n..])))
  {
    PendingCons(style, known, TokenAt(x, c, s), Later(x, c, s));
  }

  lemma PendingCons(style: Style, known: map<string, nat>, t: Token, rest: seq<Token>)
    ensures var next := Next(t, known);
      && Filled(style, [t] + rest, Numbers(known, IdsOf([t] + rest)))
         == Piece(style, t, next) + Filled(style, rest, Numbers(next, IdsOf(rest)))
      && LearnedAll(known, IdsOf([t] + rest)) == LearnedAll(next, IdsOf(rest))
  {
    var tokens := [t] + rest;
    assert tokens[1..] == rest;
    if t.Id? {
      assert IdsOf(tokens) == [t.raw] + IdsOf(rest) && IdsOf(tokens)[1..] == IdsOf(rest);
    } else {
      assert IdsOf(tokens) == IdsOf(rest);
    }
  }

  /** What is written and what is pending make up the whole line, and the dictionary will be the final one. */
  ghost predicate Owes(
    x: Syntax, style: Style, whole: string, final: map<string, nat>,
    text: string, known: map<string, nat>, c: Option<char>, rest: string)
  {
    whole == text + Pending(x, style, known, c, rest) && final == LearnedAll(known, IdsOf(Parse(x, c, rest)))
  }

  /** One turn of the loop over a line moves a piece from what is pending to what is written. */
  lemma LineStep(
    x: Syntax, style: Style, whole: string, final: map<string, nat>,
    text: string, known: map<string, nat>, c: Option<char>, rest: string)
    requires rest != [] && Owes(x, style, whole, final, text, known, c, rest)
    ensures var t, n := TokenAt(x, c, rest), Taken(x, c, rest); var next := Next(t, known);
      Owes(x, style, whole, final, text + Piece(style, t, next), next, Some(rest[n - 1]), rest[n..])
  {
    var t, n := TokenAt(x, c, rest), Taken(x, c, rest);
    PendingStep(x, style, known, c, rest);
    Regroup(text, Piece(style, t, Next(t, known)), Pending(x, style, Next(t, known), Some(rest[n - 1]), rest[n..]));
  }

  lemma LineStarts(x: Syntax, style: Style, line: string, known: map<string, nat>)
    ensures Owes(x, style, FilledLine(x, style, known, line), LearnedAll(known, IdsOf(Parsed(x, line))),
                 "", known, None, line)
  {
  }

  lemma LineEnds(
    x: Syntax, style: Style, whole: string, final: map<string, nat>,
    text: string, known: map<string, nat>, c: Option<char>)
    requires Owes(x, style, whole, final, text, known, c, [])
    ensures whole == text && final == known
  {
  }

  /** One line, with the dictionary of the lines before it. */
  method NormalizeLine(x: Syntax, style: Style, line: string, start: map<string, nat>)
    returns (text: string, known: map<string, nat>)
    ensures text == FilledLine(x, style, start, line)
    ensures known == LearnedAll(start, IdsOf(Parsed(x, line)))
  {
    text, known := "", start;
    var rest, c := line, None;
    ghost var whole, final := FilledLine(x, style, start, line), LearnedAll(start, IdsOf(Parsed(x, line)));
    LineStarts(x, style, line, start);
    while rest != []
      invariant Owes(x, style, whole, final, text, known, c, rest)
      decreases |rest|
    {
      var t, n := TokenAt(x, c, rest), Taken(x, c, rest);
      LineStep(x, style, whole, final, text, known, c, rest);
      known := Next(t, known);
      text := text + Piece(style, t, known);
      c, rest := Some(rest[n - 1]), rest[n..];
    }
    LineEnds(x, style, whole, final, text, known, c);
  }

  lemma LinesStep(
    x: Syntax, style: Style, whole: seq<string>, done: seq<string>, known: map<string, nat>, lines: seq<string>)
    requires lines != [] && whole == done + FilledLines(x, style, known, lines)
    ensures whole == done + [FilledLine(x, style, known, lines[0])]
      + FilledLines(x, style, LearnedAll(known, IdsOf(Parsed(x, lines[0]))), lines[1..])
  {
  }

  /** The normalizers: one dictionary of ids for all lines. */
  method Normalize(x: Syntax, style: Style, lines: seq<string>) returns (result: seq<string>)
    ensures result == Normalized(x, style, lines)
    ensures exists replaced :: IsRenumbered(x, style, map[], lines, result, replaced)
  {
    ghost var replaced := LinesAreRenumbered(x, style, map[], lines);
    result := [];
    var known: map<string, nat> := map[];
    ghost var rest := lines;
    for i := 0 to |lines|
      invariant rest == lines[i..]
      invariant Normalized(x, style, lines) == result + FilledLines(x, style, known, rest)
    {
      LinesStep(x, style, Normalized(x, style, lines), result, known, rest);
      var text, next := NormalizeLine(x, style, lines[i], known);
      result, known, rest := result + [text], next, rest[1..];
    }
  }
}

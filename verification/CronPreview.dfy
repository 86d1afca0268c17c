/**
 The schedule page's preview of the next runs: a search over minutes, and the
 matcher for one cron field.
 */
module CronPreview {
  import opened Decimal
  import opened JsText
  import opened Arithmetic

  // ------------------------------------------------------------- the matcher

  /** cronFieldMatch. The recursion ends because pieces hold no comma. */
  predicate FieldMatch(pattern: string, value: int)
    decreases |pattern|
  {
    if pattern == "*" || pattern == "?" then true
    else if '/' in pattern then Divides(ParseInt(Split(pattern, '/')[1]), value)
    else if ',' in pattern then
      var pieces := Split(pattern, ',');
      exists i :: 0 <= i < |pieces| && FieldMatch(Trim(pieces[i]), value)
    else if '-' in pattern then
      var ends := Split(pattern, '-');
      var l, r := ToNumber(ends[0]), ToNumber(ends[1]);
      l.Int? && r.Int? && l.value <= value <= r.value
    else ParseInt(pattern) == Int(value)
  }

  /** An item of a list, or a whole field. */
  datatype Item = Star | Any | Number(n: nat) | Range(lo: nat, hi: nat) | Every(step: nat)

  /** Several items separated by commas. */
  type Field = seq<Item>

  function PrintItem(it: Item): string {
    match it
    case Star => "*"
    case Any => "?"
    case Number(n) => Digits(n)
    case Range(lo, hi) => Digits(lo) + "-" + Digits(hi)
    case Every(step) => "*/" + Digits(step)
  }

  function PrintItems(f: Field): (pieces: seq<string>)
    ensures |pieces| == |f|
    ensures forall i :: 0 <= i < |f| ==> pieces[i] == PrintItem(f[i])
  {
    if f == [] then [] else [PrintItem(f[0])] + PrintItems(f[1..])
  }

  function Print(f: Field): string
    requires f != []
  {
    Join(PrintItems(f), ',')
  }

  predicate ItemMeans(it: Item, value: int) {
    match it
    case Star => true
    case Any => true
    case Number(n) => value == n
    case Range(lo, hi) => lo <= value <= hi
    case Every(step) => step != 0 && value % step == 0
  }

  /** The usual meaning of a field: the union of its items. */
  predicate Means(f: Field, value: int) {
    exists i :: 0 <= i < |f| && ItemMeans(f[i], value)
  }

  lemma PrintedChars(it: Item)
    ensures var s := PrintItem(it);
            && s != [] && ',' !in s
            && (forall c :: c in s ==> !IsSpace(c))
            && ('/' in s <==> it.Every?)
            && ('-' in s <==> it.Range?)
  {
    match it
    case Number(n) => NumeralChars(Digits(n));
    case Range(lo, hi) =>
      NumeralChars(Digits(lo));
      NumeralChars(Digits(hi));
      assert PrintItem(it)[|Digits(lo)|] == '-';
    case Every(step) =>
      NumeralChars(Digits(step));
      assert PrintItem(it)[1] == '/';
    case _ =>
  }

  lemma RangeMatches(lo: nat, hi: nat, value: int)
    ensures FieldMatch(PrintItem(Range(lo, hi)), value) <==> lo <= value <= hi
  {
    var s := PrintItem(Range(lo, hi));
    PrintedChars(Range(lo, hi));
    NumeralChars(Digits(lo));
    assert s == Digits(lo) + ['-'] + Digits(hi);
    SplitHead(Digits(lo), Digits(hi), '-');
    NumeralChars(Digits(hi));
    ToNumberOfNumeral(lo);
    ToNumberOfNumeral(hi);
    assert s[|Digits(lo)|] == '-';
  }

  lemma StepMatches(step: nat, value: int)
    ensures FieldMatch(PrintItem(Every(step)), value) <==> step != 0 && value % step == 0
  {
    PrintedChars(Every(step));
    StarSlash(Digits(step));
    SplitHead("*", Digits(step), '/');
    NumeralChars(Digits(step));
    ParseIntOfNumeral(step, "");
    assert Digits(step) + "" == Digits(step);
  }

  lemma NumberMatches(n: nat, value: int)
    ensures FieldMatch(Digits(n), value) <==> value == n
  {
    PrintedChars(Number(n));
    NumeralChars(Digits(n));
    ParseIntOfNumeral(n, "");
    assert Digits(n) + "" == Digits(n);
    assert Digits(n)[0] in Digits(n);
  }

  lemma ItemMatches(it: Item, value: int)
    ensures FieldMatch(PrintItem(it), value) <==> ItemMeans(it, value)
  {
    match it
    case Number(n) => NumberMatches(n, value);
    case Range(lo, hi) => RangeMatches(lo, hi, value);
    case Every(step) => StepMatches(step, value);
    case _ =>
  }

  predicate StepFree(f: Field) {
    forall i :: 0 <= i < |f| ==> !f[i].Every?
  }

  lemma {:induction false} JoinedChars(pieces: seq<string>, sep: char, c: char)
    requires pieces != []
    ensures c in Join(pieces, sep) <==> (|pieces| > 1 && c == sep) || exists i :: 0 <= i < |pieces| && c in pieces[i]
    decreases |pieces|
  {
    if |pieces| > 1 {
      var tail := pieces[1..];
      JoinedChars(tail, sep, c);
      assert forall i :: 0 <= i < |tail| ==> tail[i] == pieces[i + 1];
      assert forall i :: 0 < i < |pieces| ==> pieces[i] == tail[i - 1];
      assert Join(pieces, sep) == pieces[0] + [sep] + Join(tail, sep);
    }
  }

  /** On a single item, or a list of step-free items, the matcher computes the meaning. */
  lemma PrintedFieldMatches(f: Field, value: int)
    requires f != [] && (|f| == 1 || StepFree(f))
    ensures FieldMatch(Print(f), value) <==> Means(f, value)
  {
    var pieces := PrintItems(f);
    forall i | 0 <= i < |f|
      ensures ',' !in pieces[i] && Trim(pieces[i]) == pieces[i]
      ensures FieldMatch(pieces[i], value) <==> ItemMeans(f[i], value)
      ensures '/' in pieces[i] <==> f[i].Every?
    {
      PrintedChars(f[i]);
      TrimNothing(pieces[i]);
      ItemMatches(f[i], value);
    }
    if |f| > 1 {
      SplitJoin(pieces, ',');
      JoinedChars(pieces, ',', '/');
      JoinedChars(pieces, ',', ',');
    }
  }

  lemma {:induction false} JoinSplitAt(pieces: seq<string>, k: nat, sep: char)
    requires 0 < k < |pieces|
    ensures Join(pieces, sep) == Join(pieces[..k], sep) + [sep] + Join(pieces[k..], sep)
  {
    if k == 1 {
      assert pieces[..1][0] == pieces[0];
    } else {
      JoinSplitAt(pieces[1..], k - 1, sep);
      assert pieces[1..][..k - 1] == pieces[..k][1..];
      assert pieces[1..][k - 1..] == pieces[k..];
    }
  }

  /** What is printed up to the first slash of a field whose first step is item `k`. */
  function BeforeStep(f: Field, k: nat): string
    requires k < |f|
  {
    if k == 0 then "*" else Join(PrintItems(f)[..k], ',') + [','] + "*"
  }

  /** What is printed after that slash: the step, and any later items. */
  function AfterStep(f: Field, k: nat): string
    requires k < |f| && f[k].Every?
  {
    Digits(f[k].step) + if k + 1 < |f| then [','] + Join(PrintItems(f)[k + 1..], ',') else ""
  }

  lemma PrintFromStep(f: Field, k: nat)
    requires k < |f| && f[k].Every?
    ensures Join(PrintItems(f)[k..], ',') == "*" + ['/'] + AfterStep(f, k)
  {
    var rest := PrintItems(f)[k..];
    var digits := Digits(f[k].step);
    StarSlash(digits);
    assert rest[0] == PrintItem(f[k]);
    if k + 1 < |f| {
      var later := PrintItems(f)[k + 1..];
      assert rest[1..] == later;
      Reassociate("*" + ['/'], digits, [','], Join(later, ','));
    }
  }

  lemma StarSlash(digits: string)
    ensures "*/" + digits == "*" + ['/'] + digits
  {
  }

  lemma Reassociate(a: string, b: string, c: string, d: string)
    ensures (a + b) + c + d == a + (b + (c + d))
  {
  }

  lemma PrintAroundStep(f: Field, k: nat)
    requires k < |f| && f[k].Every?
    ensures Print(f) == BeforeStep(f, k) + ['/'] + AfterStep(f, k)
  {
    var pieces := PrintItems(f);
    PrintFromStep(f, k);
    if k == 0 {
      assert pieces[0..] == pieces;
    } else {
      JoinSplitAt(pieces, k, ',');
    }
  }

  lemma NoSlashBefore(f: Field, k: nat)
    requires k < |f| && StepFree(f[..k])
    ensures '/' !in BeforeStep(f, k)
  {
    if k > 0 {
      var pieces := PrintItems(f);
      JoinedChars(pieces[..k], ',', '/');
      forall i | 0 <= i < k ensures '/' !in pieces[..k][i] {
        PrintedChars(f[i]);
        assert f[..k][i] == f[i];
      }
    }
  }

  /**
   A list with a step in it is different: the matcher looks for the slash
   first, so only the first step counts and every other item is ignored.
   */
  lemma StepHidesTheList(f: Field, k: nat, value: int)
    requires k < |f| && f[k].Every? && StepFree(f[..k])
    ensures FieldMatch(Print(f), value) <==> ItemMeans(f[k], value)
  {
    PrintAroundStep(f, k);
    NoSlashBefore(f, k);
    SlashDecides(BeforeStep(f, k), f[k].step, AfterStep(f, k)[|Digits(f[k].step)|..], value);
  }

  /** Every value of the item is a multiple of the step. */
  predicate OnlyMultiples(it: Item, step: nat) {
    match it
    case Star => step == 1
    case Any => step == 1
    case Number(n) => step != 0 && n % step == 0
    case Range(lo, hi) => lo > hi || step == 1 || (lo == hi && step != 0 && lo % step == 0)
    case Every(m) => m == 0 || (step != 0 && m % step == 0)
  }

  lemma OnlyMultiplesIff(it: Item, step: nat)
    ensures OnlyMultiples(it, step) <==> forall value :: ItemMeans(it, value) ==> ItemMeans(Every(step), value)
  {
    if OnlyMultiples(it, step) {
      forall value | ItemMeans(it, value) ensures ItemMeans(Every(step), value) {
        if it.Every? {
          MultipleOfMultiple(value, it.step, step);
        }
      }
    } else {
      NotAMultiple(it, step);
    }
  }

  lemma NotAMultiple(it: Item, step: nat)
    requires !OnlyMultiples(it, step)
    ensures exists value :: ItemMeans(it, value) && !ItemMeans(Every(step), value)
  {
    match it
    case Number(n) => assert ItemMeans(it, n);
    case Range(lo, hi) =>
      assert ItemMeans(it, lo);
      if lo < hi {
        assert ItemMeans(it, lo + 1);
        if step != 0 && lo % step == 0 && (lo + 1) % step == 0 {
          NeighboursDivide(lo, step);
        }
      }
    case Every(m) => assert ItemMeans(it, m);
    case _ =>
      assert ItemMeans(it, 0) && ItemMeans(it, 1);
      if step != 0 && 1 % step == 0 {
        NeighboursDivide(0, step);
      }
  }

  /**
   So a list with a step keeps its usual meaning, for all values, exactly when
   every value of every item is a multiple of the first step.
   */
  lemma StepListMeansIff(f: Field, k: nat)
    requires k < |f| && f[k].Every? && StepFree(f[..k])
    ensures (forall value :: FieldMatch(Print(f), value) <==> Means(f, value)) <==>
            (forall i :: 0 <= i < |f| ==> OnlyMultiples(f[i], f[k].step))
  {
    forall value ensures FieldMatch(Print(f), value) <==> ItemMeans(f[k], value) {
      StepHidesTheList(f, k, value);
    }
    if forall i :: 0 <= i < |f| ==> OnlyMultiples(f[i], f[k].step) {
      forall value ensures FieldMatch(Print(f), value) <==> Means(f, value) {
        if i :| 0 <= i < |f| && ItemMeans(f[i], value) {
          OnlyMultiplesIff(f[i], f[k].step);
        }
      }
    } else {
      var i :| 0 <= i < |f| && !OnlyMultiples(f[i], f[k].step);
      NotAMultiple(f[i], f[k].step);
      var value :| ItemMeans(f[i], value) && !ItemMeans(f[k], value);
      assert Means(f, value) && !FieldMatch(Print(f), value);
    }
  }

  /** A range with an end left out reads it as 0. */
  lemma OpenLeftMatches(n: nat, value: int)
    ensures FieldMatch("-" + Digits(n), value) <==> 0 <= value <= n
  {
    var s := "-" + Digits(n);
    NumeralChars(Digits(n));
    ToNumberOfNumeral(n);
    assert s == "" + ['-'] + Digits(n) && s[0] == '-';
    SplitHead("", Digits(n), '-');
  }

  lemma OpenRightMatches(n: nat, value: int)
    ensures FieldMatch(Digits(n) + "-", value) <==> n <= value <= 0
  {
    var s := Digits(n) + "-";
    NumeralChars(Digits(n));
    ToNumberOfNumeral(n);
    assert s == Digits(n) + ['-'] + "" && s[|Digits(n)|] == '-';
    assert forall c :: c in s ==> c in Digits(n) || c == '-';
    SplitHead(Digits(n), "", '-');
  }

  /** A number followed by anything else is that number. */
  lemma NumberPrefixMatches(n: nat, rest: string, value: int)
    requires rest == "" || !IsDigit(rest[0])
    requires '/' !in rest && ',' !in rest && '-' !in rest
    ensures FieldMatch(Digits(n) + rest, value) <==> value == n
  {
    NumeralChars(Digits(n));
    ParseIntOfNumeral(n, rest);
    assert Digits(n)[0] in Digits(n);
    assert (Digits(n) + rest)[0] == Digits(n)[0];
  }

  /** A word that starts with no digit or sign matches nothing. */
  lemma OtherWordsNeverMatch(s: string, value: int)
    requires s != "*" && s != "?" && '/' !in s && ',' !in s && '-' !in s
    requires s == "" || !(IsSpace(s[0]) || IsDigit(s[0]) || s[0] == '+')
    ensures !FieldMatch(s, value)
  {
  }

  /** Whatever stands before the first slash is ignored, as in "5/15" or "1-30/10", and whatever follows the number. */
  lemma SlashDecides(head: string, n: nat, rest: string, value: int)
    requires '/' !in head && (rest == "" || !IsDigit(rest[0]))
    ensures FieldMatch(head + ['/'] + (Digits(n) + rest), value) <==> n != 0 && value % n == 0
  {
    var from := Digits(n) + rest;
    SecondPiece(n, rest);
    SlashFound(head + ['/'] + from, head, from);
  }

  /** A pattern with a slash is decided by the number after its first slash. */
  lemma SlashFound(pattern: string, head: string, from: string)
    requires pattern == head + ['/'] + from && '/' !in head
    ensures pattern != "*" && pattern != "?" && '/' in pattern
    ensures Split(pattern, '/')[1] == Split(from, '/')[0]
  {
    SplitHead(head, from, '/');
    assert pattern[|head|] == '/';
  }

  /** Up to the next slash, what follows a step still starts with its digits. */
  lemma SecondPiece(n: nat, rest: string)
    requires rest == "" || !IsDigit(rest[0])
    ensures ParseInt(Split(Digits(n) + rest, '/')[0]) == Int(n)
  {
    NumeralChars(Digits(n));
    var s := Digits(n) + rest;
    if '/' in s {
      var k := IndexOf(s, '/');
      assert k >= |Digits(n)|;
      assert s[..k] == Digits(n) + rest[..k - |Digits(n)|];
      ParseIntOfNumeral(n, rest[..k - |Digits(n)|]);
    } else {
      ParseIntOfNumeral(n, rest);
    }
  }

  // --------------------------------------------------------------- the search

  /** What a Date answers about one minute. */
  datatype Fields = Fields(minute: int, hour: int, day: int, month: int, weekday: int, year: int)

  const MAX_MINUTES: nat := 2000
  const LAST_YEAR: int := 2099

  /** expr.split(/\s+/) on a trimmed string. */
  function Words(s: string): seq<string>
    decreases |s|
  {
    var t := TrimLeft(s);
    if t == [] then []
    else
      var w := Word(t);
      [w] + Words(t[|w|..])
  }

  function Word(s: string): (w: string)
    ensures w <= s
    ensures s != [] && !IsSpace(s[0]) ==> w != []
  {
    if s == [] || IsSpace(s[0]) then [] else [s[0]] + Word(s[1..])
  }

  predicate IsWord(w: string) {
    w != "" && forall c :: c in w ==> !IsSpace(c)
  }

  lemma {:induction false} WordAtFront(w: string, rest: string)
    requires (forall c :: c in w ==> !IsSpace(c)) && (rest == "" || IsSpace(rest[0]))
    ensures Word(w + rest) == w
  {
    if w == "" {
      assert w + rest == rest;
    } else {
      assert (w + rest)[1..] == w[1..] + rest;
      assert w[0] in w;
      WordAtFront(w[1..], rest);
    }
  }

  lemma SpaceInFront(s: string)
    ensures Words([' '] + s) == Words(s)
  {
    assert ([' '] + s)[1..] == s;
  }

  /** Words joined by single spaces are split into the same words. */
  lemma {:induction false} WordsOfJoin(ws: seq<string>)
    requires ws != [] && forall i :: 0 <= i < |ws| ==> IsWord(ws[i])
    ensures Words(Join(ws, ' ')) == ws
    decreases |ws|
  {
    var w := ws[0];
    var rest := if |ws| == 1 then "" else [' '] + Join(ws[1..], ' ');
    var s := w + rest;
    assert Join(ws, ' ') == s;
    assert w[0] in w && s[0] == w[0];
    assert TrimLeft(s) == s;
    WordAtFront(w, rest);
    assert s[|w|..] == rest;
    if |ws| > 1 {
      SpaceInFront(Join(ws[1..], ' '));
      WordsOfJoin(ws[1..]);
    }
    assert ws == [w] + ws[1..];
  }

  /** A field on which the matcher computes the usual meaning. */
  predicate Plain(f: Field) {
    f != [] && (|f| == 1 || StepFree(f))
  }

  lemma PrintIsWord(f: Field)
    requires f != []
    ensures IsWord(Print(f))
  {
    var pieces := PrintItems(f);
    forall c | c in Print(f) ensures !IsSpace(c) {
      JoinedChars(pieces, ',', c);
      if c != ',' {
        var i :| 0 <= i < |pieces| && c in pieces[i];
        PrintedChars(f[i]);
      }
    }
    PrintedChars(f[0]);
    assert Print(f)[0] == pieces[0][0];
  }

  predicate Matches(parts: seq<string>, f: Fields)
    requires |parts| == 5
  {
    && FieldMatch(parts[0], f.minute)
    && FieldMatch(parts[1], f.hour)
    && FieldMatch(parts[2], f.day)
    && FieldMatch(parts[3], f.month)
    && FieldMatch(parts[4], f.weekday)
  }

  /** A minute the search may report: within reach, and no minute up to it is past the last year. */
  predicate InReach(calendar: int -> Fields, now: int, t: int) {
    now < t <= now + MAX_MINUTES && forall u :: now < u <= t ==> calendar(u).year <= LAST_YEAR
  }

  predicate IsRun(parts: seq<string>, calendar: int -> Fields, now: int, t: int)
    requires |parts| == 5
  {
    InReach(calendar, now, t) && Matches(parts, calendar(t))
  }

  /** A cron expression: minute, hour, day of month, month and day of week. */
  datatype Expr = Expr(minute: Field, hour: Field, day: Field, month: Field, weekday: Field)

  predicate PlainExpr(e: Expr) {
    Plain(e.minute) && Plain(e.hour) && Plain(e.day) && Plain(e.month) && Plain(e.weekday)
  }

  function PrintParts(e: Expr): (parts: seq<string>)
    requires PlainExpr(e)
    ensures |parts| == 5
  {
    [Print(e.minute), Print(e.hour), Print(e.day), Print(e.month), Print(e.weekday)]
  }

  function PrintExpr(e: Expr): string
    requires PlainExpr(e)
  {
    Join(PrintParts(e), ' ')
  }

  /** A printed expression has its five parts again, in their order. */
  lemma WordsOfExpr(e: Expr)
    requires PlainExpr(e)
    ensures Words(PrintExpr(e)) == PrintParts(e)
  {
    PrintIsWord(e.minute);
    PrintIsWord(e.hour);
    PrintIsWord(e.day);
    PrintIsWord(e.month);
    PrintIsWord(e.weekday);
    WordsOfJoin(PrintParts(e));
  }

  /**
   The runs of a printed expression are the minutes that all five fields mean,
   among the 2000 after now and before the first one past 2099.
   */
  lemma RunsOfExpr(e: Expr, calendar: int -> Fields, now: int, t: int)
    requires PlainExpr(e)
    ensures |Words(PrintExpr(e))| == 5
    ensures IsRun(Words(PrintExpr(e)), calendar, now, t) <==>
            && now < t <= now + 2000 && (forall u :: now < u <= t ==> calendar(u).year <= 2099)
            && Means(e.minute, calendar(t).minute) && Means(e.hour, calendar(t).hour)
            && Means(e.day, calendar(t).day) && Means(e.month, calendar(t).month)
            && Means(e.weekday, calendar(t).weekday)
  {
    WordsOfExpr(e);
    PrintedFieldMatches(e.minute, calendar(t).minute);
    PrintedFieldMatches(e.hour, calendar(t).hour);
    PrintedFieldMatches(e.day, calendar(t).day);
    PrintedFieldMatches(e.month, calendar(t).month);
    PrintedFieldMatches(e.weekday, calendar(t).weekday);
  }

  /** The first `limit` runs in order, or all of them, with none skipped. */
  ghost predicate FirstRuns(parts: seq<string>, calendar: int -> Fields, now: int, limit: int, r: seq<int>)
    requires |parts| == 5
  {
    && (forall i, j :: 0 <= i < j < |r| ==> r[i] < r[j])
    && (forall i :: 0 <= i < |r| ==> IsRun(parts, calendar, now, r[i]))
    && (r != [] ==> |r| <= limit)
    && (forall t :: IsRun(parts, calendar, now, t) && t !in r ==> |r| >= limit && forall i :: 0 <= i < |r| ==> r[i] < t)
  }

  /** There is only one such sequence. */
  lemma FirstRunsUnique(parts: seq<string>, calendar: int -> Fields, now: int, limit: int, r: seq<int>, s: seq<int>)
    requires |parts| == 5
    requires FirstRuns(parts, calendar, now, limit, r) && FirstRuns(parts, calendar, now, limit, s)
    ensures r == s
  {
    forall k | 0 <= k < |r| && k < |s| ensures r[k] == s[k] {
      AgreeAt(parts, calendar, now, limit, r, s, k);
    }
    NotLonger(parts, calendar, now, limit, r, s);
    NotLonger(parts, calendar, now, limit, s, r);
  }

  lemma {:induction false} AgreeAt(parts: seq<string>, calendar: int -> Fields, now: int, limit: int, r: seq<int>,
        s: seq<int>, k: nat)
    requires |parts| == 5 && k < |r| && k < |s|
    requires FirstRuns(parts, calendar, now, limit, r) && FirstRuns(parts, calendar, now, limit, s)
    ensures r[k] == s[k]
    decreases k
  {
    forall j | 0 <= j < k ensures r[j] == s[j] {
      AgreeAt(parts, calendar, now, limit, r, s, j);
    }
    NotEarlier(parts, calendar, now, limit, r, s, k);
    NotEarlier(parts, calendar, now, limit, s, r, k);
  }

  /** Run `k` of one sequence is not before run `k` of the other, once the runs before agree. */
  lemma NotEarlier(parts: seq<string>, calendar: int -> Fields, now: int, limit: int, r: seq<int>, s: seq<int>, k: nat)
    requires |parts| == 5 && k < |r| && k < |s|
    requires FirstRuns(parts, calendar, now, limit, r) && FirstRuns(parts, calendar, now, limit, s)
    requires forall j :: 0 <= j < k ==> r[j] == s[j]
    ensures s[k] <= r[k]
  {
    assert IsRun(parts, calendar, now, r[k]);
    if r[k] in s {
      var j :| 0 <= j < |s| && s[j] == r[k];
      assert forall i :: 0 <= i < k ==> s[i] < r[k];
      assert j >= k;
    }
  }

  lemma NotLonger(parts: seq<string>, calendar: int -> Fields, now: int, limit: int, r: seq<int>, s: seq<int>)
    requires |parts| == 5
    requires FirstRuns(parts, calendar, now, limit, r) && FirstRuns(parts, calendar, now, limit, s)
    requires forall k :: 0 <= k < |r| && k < |s| ==> r[k] == s[k]
    ensures |s| <= |r|
  {
    if s != [] {
      var t := s[|s| - 1];
      assert IsRun(parts, calendar, now, t);
      if t in r {
        var j :| 0 <= j < |r| && r[j] == t;
        assert j < |s| ==> r[j] == s[j];
      }
    }
  }

  /**
   cronNextRuns, with minutes numbered by `calendar` and the display strings
   left out. `count || 5` turns a missing or zero count into 5.
   */
  method NextRuns(expr: string, count: int, calendar: int -> Fields, now: int) returns (results: seq<int>)
    ensures |Words(expr)| != 5 ==> results == []
    ensures |Words(expr)| == 5 ==>
              FirstRuns(Words(expr), calendar, now, if count == 0 then 5 else count, results)
  {
    results := [];
    if expr == "" {
      return;
    }
    var limit := if count == 0 then 5 else count;
    var parts := Words(expr);
    if |parts| != 5 {
      return;
    }
    var cur := now;
    var maxIter := MAX_MINUTES;
    while |results| < limit && maxIter > 0
      invariant 0 <= maxIter <= MAX_MINUTES && cur == now + (MAX_MINUTES - maxIter)
      invariant results != [] ==> |results| <= limit
      invariant Searched(parts, calendar, now, cur, results)
      decreases maxIter
    {
      maxIter := maxIter - 1;
      cur := cur + 1;
      var f := calendar(cur);
      if f.year > LAST_YEAR {
        NothingLater(parts, calendar, now, cur, results);
        return;
      }
      SearchedNext(parts, calendar, now, cur - 1, results);
      if !FieldMatch(parts[0], f.minute) { continue; }
      if !FieldMatch(parts[1], f.hour) { continue; }
      if !FieldMatch(parts[2], f.day) { continue; }
      if !FieldMatch(parts[3], f.month) { continue; }
      if !FieldMatch(parts[4], f.weekday) { continue; }

      results := results + [cur];
    }
  }

  /** The runs up to `cur`, all of them in order; and no minute so far is past the last year. */
  ghost predicate Searched(parts: seq<string>, calendar: int -> Fields, now: int, cur: int, r: seq<int>)
    requires |parts| == 5
  {
    && (forall u :: now < u <= cur ==> calendar(u).year <= LAST_YEAR)
    && (forall i, j :: 0 <= i < j < |r| ==> r[i] < r[j])
    && (forall i :: 0 <= i < |r| ==> r[i] <= cur && IsRun(parts, calendar, now, r[i]))
    && (forall t :: IsRun(parts, calendar, now, t) && t <= cur ==> t in r)
  }

  lemma SearchedNext(parts: seq<string>, calendar: int -> Fields, now: int, cur: int, r: seq<int>)
    requires |parts| == 5 && now <= cur < now + MAX_MINUTES && Searched(parts, calendar, now, cur, r)
    requires calendar(cur + 1).year <= LAST_YEAR
    ensures Matches(parts, calendar(cur + 1)) ==> Searched(parts, calendar, now, cur + 1, r + [cur + 1])
    ensures !Matches(parts, calendar(cur + 1)) ==> Searched(parts, calendar, now, cur + 1, r)
  {
    RunIffMatch(parts, calendar, now, cur, r);
    var r' := r + [cur + 1];
    assert forall t :: t in r ==> t in r';
    assert cur + 1 in r';
  }

  lemma RunIffMatch(parts: seq<string>, calendar: int -> Fields, now: int, cur: int, r: seq<int>)
    requires |parts| == 5 && now <= cur < now + MAX_MINUTES && Searched(parts, calendar, now, cur, r)
    requires calendar(cur + 1).year <= LAST_YEAR
    ensures IsRun(parts, calendar, now, cur + 1) <==> Matches(parts, calendar(cur + 1))
  {
    assert forall u :: now < u <= cur + 1 ==> calendar(u).year <= LAST_YEAR;
  }

  /** A minute past the last year ends the reach. */
  lemma NothingLater(parts: seq<string>, calendar: int -> Fields, now: int, cur: int, r: seq<int>)
    requires |parts| == 5 && now < cur && Searched(parts, calendar, now, cur - 1, r)
    requires calendar(cur).year > LAST_YEAR
    ensures forall t :: IsRun(parts, calendar, now, t) ==> t in r
  {
  }
}

/**
  Objective grading. `MayGrade` follows the code's branches and its repeated normalisation, in which the order a
  map is walked in decides between keys that normalise alike;
  `Correct` is an independent reading of when an answer deserves the item's points, from the characters and the
  JSON values up, and `FullCreditIff` connects them. The methods are the code's loops.
 */
module Grading {
  import opened Common
  import opened Entities
  import opened Sorting

  // ---- Text normalisation ----

  predicate IsSpace(c: char) {
    c == ' ' || '\t' <= c <= '\r' || c as int == 0x85 || c as int == 0xA0
  }

  function LowerChar(c: char): char {
    if 'A' <= c <= 'Z' then (c as int + 32) as char else c
  }

  function ToLower(s: string): (r: string)
    ensures |r| == |s| && forall i :: 0 <= i < |s| ==> r[i] == LowerChar(s[i])
  {
    seq(|s|, i requires 0 <= i < |s| => LowerChar(s[i]))
  }

  function TrimLeft(s: string): (r: string)
    ensures r == "" || !IsSpace(r[0])
    ensures r == "" || (s != "" && r[|r| - 1] == s[|s| - 1])
  {
    if s != "" && IsSpace(s[0]) then TrimLeft(s[1..]) else s
  }

  function TrimRight(s: string): (r: string)
    ensures r == "" || !IsSpace(r[|r| - 1])
    ensures r <= s
  {
    if s != "" && IsSpace(s[|s| - 1]) then TrimRight(s[..|s| - 1]) else s
  }

  function TrimSpace(s: string): string {
    TrimRight(TrimLeft(s))
  }

  function Normalize(s: string): string {
    ToLower(TrimSpace(s))
  }

  /** Normalising twice is normalising once, so the code's repeated normalisation is harmless. */
  lemma NormalizeIdempotent(s: string)
    ensures Normalize(Normalize(s)) == Normalize(s)
  {
    var n := Normalize(s);
    assert n != "" ==> !IsSpace(n[0]) && !IsSpace(n[|n| - 1]);
    assert TrimLeft(n) == n && TrimRight(n) == n;
    assert ToLower(n) == n;
  }

  /** `core` is `s` without its surrounding blanks. */
  ghost predicate Core(s: string, core: string) {
    exists i, j :: CutsCore(s, core, i, j)
  }

  ghost predicate CutsCore(s: string, core: string, i: int, j: int) {
    && 0 <= i <= j <= |s| && core == s[i..j] && (forall k :: 0 <= k < |s| && !(i <= k < j) ==> IsSpace(s[k]))
    && (core == "" || (!IsSpace(core[0]) && !IsSpace(core[|core| - 1])))
  }

  /** A capital letter's small one, and every other character itself. */
  predicate Small(c: char, d: char) {
    if 'A' <= c <= 'Z' then d as int - 'a' as int == c as int - 'A' as int else d == c
  }

  /** `r` is `s` without its surrounding blanks and in small letters. */
  ghost predicate Folds(s: string, r: string) {
    exists core :: Core(s, core) && |r| == |core| && forall k :: 0 <= k < |r| ==> Small(core[k], r[k])
  }

  lemma {:induction false} TrimLeftCuts(s: string) returns (i: nat)
    ensures i <= |s| && TrimLeft(s) == s[i..] && forall k :: 0 <= k < i ==> IsSpace(s[k])
  {
    if s != "" && IsSpace(s[0]) {
      var j := TrimLeftCuts(s[1..]);
      i := j + 1;
      assert forall k :: 0 < k < i ==> s[k] == s[1..][k - 1];
    } else {
      i := 0;
    }
  }

  lemma {:induction false} TrimRightCuts(s: string) returns (j: nat)
    ensures j <= |s| && TrimRight(s) == s[..j] && forall k :: j <= k < |s| ==> IsSpace(s[k])
  {
    if s != "" && IsSpace(s[|s| - 1]) {
      j := TrimRightCuts(s[..|s| - 1]);
    } else {
      j := |s|;
    }
  }

  lemma TrimSpaceCuts(s: string) returns (i: nat, j: nat)
    ensures CutsCore(s, TrimSpace(s), i, j)
  {
    i := TrimLeftCuts(s);
    var n := TrimRightCuts(s[i..]);
    j := i + n;
    forall k | j <= k < |s| ensures IsSpace(s[k]) {
      assert s[k] == s[i..][k - i];
    }
    assert s[i..][..n] == s[i..j];
    if TrimSpace(s) != "" {
      assert TrimSpace(s)[0] == TrimLeft(s)[0];
    }
  }

  /** A core that is not empty lies within every other one. */
  lemma CutsWithin(s: string, a: string, i: int, j: int, b: string, k: int, l: int)
    requires CutsCore(s, a, i, j) && CutsCore(s, b, k, l) && a != ""
    ensures k <= i < j <= l && b != ""
  {
    assert a[0] == s[i] && a[|a| - 1] == s[j - 1];
  }

  lemma CoreUnique(s: string, a: string, b: string)
    requires Core(s, a) && Core(s, b)
    ensures a == b
  {
    var i, j :| CutsCore(s, a, i, j);
    var k, l :| CutsCore(s, b, k, l);
    assert a == s[i..j] && b == s[k..l];
    if a != "" {
      CutsWithin(s, a, i, j, b, k, l);
    }
    if b != "" {
      CutsWithin(s, b, k, l, a, i, j);
    }
  }

  lemma CoreIsTrimmed(s: string, core: string)
    ensures Core(s, core) <==> core == TrimSpace(s)
  {
    hide TrimSpace;
    var i, j := TrimSpaceCuts(s);
    assert Core(s, TrimSpace(s));
    if Core(s, core) {
      CoreUnique(s, core, TrimSpace(s));
    }
  }

  /** The code's trimming and lowering gives exactly that text. */
  lemma FoldsIff(s: string, r: string)
    ensures Folds(s, r) <==> r == Normalize(s)
  {
    hide TrimSpace;
    var i, j := TrimSpaceCuts(s);
    assert Core(s, TrimSpace(s));
    if core :| Core(s, core) && |r| == |core| && forall k :: 0 <= k < |r| ==> Small(core[k], r[k]) {
      CoreUnique(s, core, TrimSpace(s));
      assert r == ToLower(core);
    }
  }

  // ---- Views of a JSON value ----

  function Field(m: Fields, key: string): Json {
    if key in m then m[key] else Null
  }

  /** What the formatter prints for a value. */
  function Print(v: Json): string {
    match v
    case Null => "<nil>"
    case Text(s) => s
    case Scalar(p) => p
    case List(_, p) => p
    case Strings(_, p) => p
    case Object(_, p) => p
  }

  function NormalizedScalar(v: Json): string {
    Normalize(Print(v))
  }

  function NormalizedAll(vs: seq<Json>): (r: seq<string>)
    ensures |r| == |vs| && forall i :: 0 <= i < |vs| ==> r[i] == NormalizedScalar(vs[i])
  {
    seq(|vs|, i requires 0 <= i < |vs| => NormalizedScalar(vs[i]))
  }

  function StringSlice(v: Json): seq<string> {
    match v
    case Strings(texts, _) => texts
    case List(elems, _) => NormalizedAll(elems)
    case Null => []
    case _ => [NormalizedScalar(v)]
  }

  /** `k` is a key of `m` that `name` renames to `n`. */
  ghost predicate Names<V>(m: map<string, V>, name: string -> string, k: string, n: string) {
    k in m && name(k) == n
  }

  /** A map with every key renamed; among colliding keys the one walked last wins, which may be any. */
  ghost predicate Renames<V>(m: map<string, V>, name: string -> string, r: map<string, V>) {
    && (forall k, n :: Names(m, name, k, n) ==> n in r)
    && (forall n :: n in r ==> exists k :: Names(m, name, k, n) && r[n] == m[k])
  }

  /** One such map. */
  ghost function Renamed<V>(m: map<string, V>, name: string -> string): (r: map<string, V>)
    ensures Renames(m, name, r)
  {
    var names := set k | k in m :: name(k);
    assert forall k :: k in m ==> Names(m, name, k, name(k));
    map n | n in names :: var k :| Names(m, name, k, n); m[k]
  }

  function PairFields(v: Json): Fields {
    if v.Object? then v.fields else map[]
  }

  function PrintedFields(fields: Fields): map<string, string> {
    map k | k in fields :: NormalizedScalar(fields[k])
  }

  ghost predicate Normalizes(v: Json, r: map<string, string>) {
    Renames(PrintedFields(PairFields(v)), Normalize, r)
  }

  // ---- Objective grading ----

  predicate Objective(t: QuestionType) {
    t.SingleChoice? || t.TrueFalse? || t.ShortAnswer? || t.MultipleChoice? || t.Ordering? || t.Matching?
  }

  function NormalizedTexts(texts: seq<string>): (r: seq<string>)
    ensures |r| == |texts| && forall i :: 0 <= i < |texts| ==> r[i] == Normalize(texts[i])
  {
    seq(|texts|, i requires 0 <= i < |texts| => Normalize(texts[i]))
  }

  function SameOrderedOrSet(t: QuestionType, expected: seq<string>, actual: seq<string>): bool {
    if |expected| != |actual| then false
    else if t.Ordering? then NormalizedTexts(expected) == NormalizedTexts(actual)
    else SortBy(expected, LexLeq) == SortBy(actual, LexLeq)
  }

  function FirstNonEmpty(m: Fields, key: string, fallback: string): seq<string> {
    var xs := StringSlice(Field(m, key));
    if xs == [] then StringSlice(Field(m, fallback)) else xs
  }

  /** A grade the code may give: the points an answer earns, and whether the item could be graded automatically. */
  ghost predicate MayGrade(item: Item, answer: Fields, grade: (int, bool)) {
    if |answer| == 0 then grade == (0, Objective(item.questionType))
    else match item.questionType
      case SingleChoice | TrueFalse =>
        grade == (if NormalizedScalar(Field(item.answerKey, "answer")) == NormalizedScalar(Field(answer, "answer"))
                  then item.points else 0, true)
      case ShortAnswer =>
        var actual := NormalizedScalar(Field(answer, "answer"));
        var expected := Normalize(NormalizedScalar(Field(item.answerKey, "answer")));
        grade == (if actual == expected || actual in NormalizedTexts(StringSlice(Field(item.answerKey, "accepted_answers")))
                  then item.points else 0, true)
      case MultipleChoice | Ordering =>
        grade == (if SameOrderedOrSet(item.questionType, FirstNonEmpty(item.answerKey, "answers", "order"),
                                      FirstNonEmpty(answer, "answers", "order"))
                  then item.points else 0, true)
      case Matching =>
        exists key, given :: Normalizes(Field(item.answerKey, "pairs"), key) && Normalizes(Field(answer, "pairs"), given)
          && grade == (if key == given then item.points else 0, true)
      case _ => grade == (0, false)
  }

  /** Both maps have the same names, and under each name some value in common. */
  ghost predicate CanAgree<V(!new)>(f: map<string, V>, g: map<string, V>, name: string -> string) {
    && (forall k, n :: Names(f, name, k, n) ==> Meet(f, g, name, n))
    && (forall l, n :: Names(g, name, l, n) ==> Meet(f, g, name, n))
  }

  ghost predicate Meet<V(!new)>(f: map<string, V>, g: map<string, V>, name: string -> string, n: string) {
    exists k, l :: Names(f, name, k, n) && Names(g, name, l, n) && f[k] == g[l]
  }

  /** A name of one map only, or a name with two different values. */
  ghost predicate CanDiffer<V(!new)>(f: map<string, V>, g: map<string, V>, name: string -> string) {
    || (exists k, n :: Names(f, name, k, n) && forall l :: !Names(g, name, l, n))
    || (exists l, n :: Names(g, name, l, n) && forall k :: !Names(f, name, k, n))
    || (exists k, l, n :: Names(f, name, k, n) && Names(g, name, l, n) && f[k] != g[l])
  }

  // ---- What an answer says, read from the JSON values ----

  /** The value under a key; a missing key reads as null. */
  predicate Holds(m: Fields, key: string, v: Json) {
    if key in m then m[key] == v else v.Null?
  }

  /** What the formatter prints for the value. */
  predicate Prints(v: Json, s: string) {
    match v
    case Null => s == "<nil>"
    case Text(text) => s == text
    case Scalar(printed) => s == printed
    case List(_, printed) => s == printed
    case Strings(_, printed) => s == printed
    case Object(_, printed) => s == printed
  }

  /** The value's text, without surrounding blanks and in small letters. */
  ghost predicate Says(v: Json, r: string) {
    exists s :: Prints(v, s) && Folds(s, r)
  }

  /** The choices a value holds: a list's elements, typed strings as they are, none for null, and anything else as one. */
  ghost predicate Choices(v: Json, xs: seq<string>) {
    match v
    case Null => xs == []
    case List(elems, _) => |xs| == |elems| && forall i :: 0 <= i < |xs| ==> Says(elems[i], xs[i])
    case Strings(texts, _) => xs == texts
    case _ => |xs| == 1 && Says(v, xs[0])
  }

  /** The choices offered under "answers", or under "order" when those are none. */
  ghost predicate Offers(m: Fields, xs: seq<string>) {
    exists v, w :: Holds(m, "answers", v) && Holds(m, "order", w) && if Choices(v, []) then Choices(w, xs) else Choices(v, xs)
  }

  /** The pairs relate one text to another. */
  ghost predicate Pairs(m: Fields, n: string, w: string) {
    exists v, k :: Holds(m, "pairs", v) && v.Object? && k in v.fields && Folds(k, n) && Says(v.fields[k], w)
  }

  /** Both say the same under "answer". */
  ghost predicate SameAnswer(key: Fields, given: Fields) {
    exists v, w, r :: Holds(key, "answer", v) && Holds(given, "answer", w) && Says(v, r) && Says(w, r)
  }

  /** The given answer is one of those accepted besides. */
  ghost predicate Accepted(key: Fields, given: Fields) {
    exists v, xs, w, i, r :: Holds(key, "accepted_answers", v) && Choices(v, xs) && Holds(given, "answer", w)
      && 0 <= i < |xs| && Folds(xs[i], r) && Says(w, r)
  }

  ghost predicate SameText(s: string, t: string) {
    exists r :: Folds(s, r) && Folds(t, r)
  }

  ghost predicate SameInOrder(xs: seq<string>, ys: seq<string>) {
    |xs| == |ys| && forall i :: 0 <= i < |xs| ==> SameText(xs[i], ys[i])
  }

  /** When a nonempty answer deserves the points, said without the steps that grade it. */
  ghost predicate Correct(item: Item, given: Fields) {
    var key := item.answerKey;
    match item.questionType
    case SingleChoice | TrueFalse => SameAnswer(key, given)
    case ShortAnswer => SameAnswer(key, given) || Accepted(key, given)
    case MultipleChoice => exists e, a :: Offers(key, e) && Offers(given, a) && multiset(e) == multiset(a)
    case Ordering => exists e, a :: Offers(key, e) && Offers(given, a) && SameInOrder(e, a)
    case Matching => forall n, w :: Pairs(key, n, w) <==> Pairs(given, n, w)
    case _ => false
  }

  lemma SaysIff(v: Json, r: string)
    ensures Says(v, r) <==> r == NormalizedScalar(v)
  {
    hide Folds, Normalize;
    assert Prints(v, Print(v));
    FoldsIff(Print(v), r);
    forall s | Prints(v, s) && Folds(s, r) ensures s == Print(v) {
    }
  }

  /** The code's list of choices is the value's, and no other. */
  lemma ChoicesIff(v: Json, xs: seq<string>)
    ensures Choices(v, xs) <==> xs == StringSlice(v)
  {
    hide Says, NormalizedScalar;
    forall w, r ensures Says(w, r) <==> r == NormalizedScalar(w) {
      SaysIff(w, r);
    }
  }

  lemma HoldsIff(m: Fields, key: string, v: Json)
    ensures Holds(m, key, v) <==> v == Field(m, key)
  {
  }

  lemma OffersIff(m: Fields, xs: seq<string>)
    ensures Offers(m, xs) <==> xs == FirstNonEmpty(m, "answers", "order")
  {
    hide Choices, StringSlice, Field, Holds;
    var v, w := Field(m, "answers"), Field(m, "order");
    forall key, u ensures Holds(m, key, u) <==> u == Field(m, key) {
      HoldsIff(m, key, u);
    }
    ChoicesIff(v, []);
    ChoicesIff(v, xs);
    ChoicesIff(w, xs);
    assert Holds(m, "answers", v) && Holds(m, "order", w);
  }

  lemma SameAnswerIff(key: Fields, given: Fields)
    ensures SameAnswer(key, given) <==> NormalizedScalar(Field(key, "answer")) == NormalizedScalar(Field(given, "answer"))
  {
    hide Says, NormalizedScalar, Field, Holds;
    var v, w := Field(key, "answer"), Field(given, "answer");
    HoldsIff(key, "answer", v);
    HoldsIff(given, "answer", w);
    SaysIff(v, NormalizedScalar(v));
    SaysIff(w, NormalizedScalar(v));
    if x, y, r :| Holds(key, "answer", x) && Holds(given, "answer", y) && Says(x, r) && Says(y, r) {
      HoldsIff(key, "answer", x);
      HoldsIff(given, "answer", y);
      SaysIff(x, r);
      SaysIff(y, r);
    }
  }

  lemma AcceptedIff(key: Fields, given: Fields)
    ensures Accepted(key, given) <==>
            NormalizedScalar(Field(given, "answer")) in NormalizedTexts(StringSlice(Field(key, "accepted_answers")))
  {
    hide Says, NormalizedScalar, Normalize, Field, Holds, Folds, Choices, StringSlice;
    var v, w := Field(key, "accepted_answers"), Field(given, "answer");
    var xs, actual := StringSlice(v), NormalizedScalar(w);
    HoldsIff(key, "accepted_answers", v);
    HoldsIff(given, "answer", w);
    ChoicesIff(v, xs);
    SaysIff(w, actual);
    AcceptedShortAnswer(xs, actual);
    if i :| 0 <= i < |xs| && Normalize(xs[i]) == actual {
      FoldsIff(xs[i], actual);
      assert Accepted(key, given);
    }
    if x, ys, y, i, r :| Holds(key, "accepted_answers", x) && Choices(x, ys) && Holds(given, "answer", y)
                         && 0 <= i < |ys| && Folds(ys[i], r) && Says(y, r) {
      HoldsIff(key, "accepted_answers", x);
      HoldsIff(given, "answer", y);
      ChoicesIff(x, ys);
      FoldsIff(ys[i], r);
      SaysIff(y, r);
    }
  }

  lemma SameTextIff(s: string, t: string)
    ensures SameText(s, t) <==> Normalize(s) == Normalize(t)
  {
    hide Folds, Normalize;
    FoldsIff(s, Normalize(s));
    FoldsIff(t, Normalize(s));
    if r :| Folds(s, r) && Folds(t, r) {
      FoldsIff(s, r);
      FoldsIff(t, r);
    }
  }

  /** The code's entries of a pairing are the pairs it relates. */
  lemma PairsIff(m: Fields, n: string, w: string)
    ensures Pairs(m, n, w) <==> Entry(PrintedFields(PairFields(Field(m, "pairs"))), n, w)
  {
    hide Says, Folds, Normalize, NormalizedScalar, Field, Holds;
    var v := Field(m, "pairs");
    HoldsIff(m, "pairs", v);
    var f := PrintedFields(PairFields(v));
    if k :| Names(f, Normalize, k, n) && f[k] == w {
      FoldsIff(k, n);
      SaysIff(v.fields[k], w);
      assert Pairs(m, n, w);
    }
    if x, k :| Holds(m, "pairs", x) && x.Object? && k in x.fields && Folds(k, n) && Says(x.fields[k], w) {
      HoldsIff(m, "pairs", x);
      FoldsIff(k, n);
      SaysIff(x.fields[k], w);
      assert Names(f, Normalize, k, n);
    }
  }

  /** Some key named `n` has the value `w`. */
  ghost predicate Entry(f: map<string, string>, n: string, w: string) {
    exists k :: Names(f, Normalize, k, n) && f[k] == w
  }

  /** An answer scores nothing or the item's points, and only objective types are graded. */
  lemma GradeRange(item: Item, answer: Fields, grade: (int, bool))
    requires MayGrade(item, answer, grade)
    ensures grade.1 <==> Objective(item.questionType)
    ensures grade.0 == 0 || grade.0 == item.points
    ensures !grade.1 ==> grade.0 == 0
  {
  }

  lemma AlikeAgree<V(!new)>(f: map<string, V>, g: map<string, V>, name: string -> string, r: map<string, V>)
    requires Renames(f, name, r) && Renames(g, name, r)
    ensures CanAgree(f, g, name)
  {
    forall n | n in r ensures Meet(f, g, name, n) {
      var k :| Names(f, name, k, n) && r[n] == f[k];
      var l :| Names(g, name, l, n) && r[n] == g[l];
    }
  }

  /** Under every name a value the two maps have in common. */
  lemma SharedNames<V(!new)>(f: map<string, V>, g: map<string, V>, name: string -> string) returns (r: map<string, V>)
    requires forall k, n :: Names(f, name, k, n) ==> Meet(f, g, name, n)
    ensures forall k, n :: Names(f, name, k, n) ==> n in r
    ensures forall n :: n in r ==> exists k, l :: Names(f, name, k, n) && Names(g, name, l, n) && r[n] == f[k] == g[l]
  {
    var names := set k | k in f :: name(k);
    forall k | k in f ensures Meet(f, g, name, name(k)) {
      assert Names(f, name, k, name(k));
    }
    r := map n | n in names :: var k, l :| Names(f, name, k, n) && Names(g, name, l, n) && f[k] == g[l]; f[k];
  }

  lemma SharedRenames<V(!new)>(f: map<string, V>, g: map<string, V>, name: string -> string, r: map<string, V>)
    requires forall k, n :: Names(f, name, k, n) ==> n in r
    requires forall l, n :: Names(g, name, l, n) ==> Meet(f, g, name, n)
    requires forall n :: n in r ==> exists k, l :: Names(f, name, k, n) && Names(g, name, l, n) && r[n] == f[k] == g[l]
    ensures Renames(f, name, r) && Renames(g, name, r)
  {
    forall l, n | Names(g, name, l, n) ensures n in r {
      var k, m :| Names(f, name, k, n) && Names(g, name, m, n) && f[k] == g[m];
    }
    forall n | n in r ensures (exists k :: Names(f, name, k, n) && r[n] == f[k]) && exists l :: Names(g, name, l, n) && r[n] == g[l] {
      var k, l :| Names(f, name, k, n) && Names(g, name, l, n) && r[n] == f[k] == g[l];
    }
  }

  /** Two maps can be renamed alike exactly when they can agree. */
  lemma RenamedAlikeIff<V(!new)>(f: map<string, V>, g: map<string, V>, name: string -> string)
    ensures (exists r :: Renames(f, name, r) && Renames(g, name, r)) <==> CanAgree(f, g, name)
  {
    if r :| Renames(f, name, r) && Renames(g, name, r) {
      AlikeAgree(f, g, name, r);
    }
    if CanAgree(f, g, name) {
      hide Renames, Meet, Names;
      var r := SharedNames(f, g, name);
      SharedRenames(f, g, name, r);
    }
  }

  /** And renamed differently exactly when they can differ. */
  lemma RenamedApartIff<V(!new)>(f: map<string, V>, g: map<string, V>, name: string -> string)
    ensures (exists r, q :: Renames(f, name, r) && Renames(g, name, q) && r != q) <==> CanDiffer(f, g, name)
  {
    var r, q := Renamed(f, name), Renamed(g, name);
    if k, l, n :| Names(f, name, k, n) && Names(g, name, l, n) && f[k] != g[l] {
      assert Renames(f, name, r[n := f[k]]) && Renames(g, name, q[n := g[l]]);
      assert r[n := f[k]][n] != q[n := g[l]][n];
    } else if CanDiffer(f, g, name) {
      if k, n :| Names(f, name, k, n) && forall l :: !Names(g, name, l, n) {
        assert n in r && n !in q;
      } else {
        var l, n :| Names(g, name, l, n) && forall k :: !Names(f, name, k, n);
        assert n in q && n !in r;
      }
    }
    if r', q' :| Renames(f, name, r') && Renames(g, name, q') && r' != q' {
      ApartDiffer(f, g, name, r', q');
    }
  }

  lemma ApartDiffer<V(!new)>(f: map<string, V>, g: map<string, V>, name: string -> string, r: map<string, V>,
                             q: map<string, V>)
    requires Renames(f, name, r) && Renames(g, name, q) && r != q
    ensures CanDiffer(f, g, name)
  {
    if n :| n in r && n !in q {
      var k :| Names(f, name, k, n) && r[n] == f[k];
    } else if n :| n in q && n !in r {
      var l :| Names(g, name, l, n) && q[n] == g[l];
    } else {
      assert r.Keys == q.Keys;
      var n :| n in r && r[n] != q[n];
      var k :| Names(f, name, k, n) && r[n] == f[k];
      var l :| Names(g, name, l, n) && q[n] == g[l];
    }
  }

  lemma SameSetIsSameMultiset(expected: seq<string>, actual: seq<string>)
    ensures SameOrderedOrSet(MultipleChoice, expected, actual) <==> multiset(expected) == multiset(actual)
  {
    LexOrder();
    LexUntied(multiset(expected));
    SortCanonical(expected, actual, LexLeq);
    assert |multiset(expected)| == |expected| && |multiset(actual)| == |actual|;
  }

  lemma SameOrderIsPairwise(expected: seq<string>, actual: seq<string>)
    ensures SameOrderedOrSet(Ordering, expected, actual) <==>
      |expected| == |actual| && forall i :: 0 <= i < |expected| ==> Normalize(expected[i]) == Normalize(actual[i])
  {
    if |expected| == |actual| {
      var e, a := NormalizedTexts(expected), NormalizedTexts(actual);
      if e == a {
        assert forall i :: 0 <= i < |e| ==> e[i] == a[i];
      }
    }
  }

  lemma AcceptedShortAnswer(texts: seq<string>, actual: string)
    ensures actual in NormalizedTexts(texts) <==> exists i :: 0 <= i < |texts| && Normalize(texts[i]) == actual
  {
    var r := NormalizedTexts(texts);
    if i :| 0 <= i < |texts| && Normalize(texts[i]) == actual {
      assert r[i] == actual;
    }
  }

  /** The pairings can be told alike: the same texts are related, and each to some text in common. */
  ghost predicate PairsAgree(key: Fields, given: Fields) {
    && (forall n, w :: Pairs(key, n, w) ==> PairsMeet(key, given, n))
    && (forall n, w :: Pairs(given, n, w) ==> PairsMeet(key, given, n))
  }

  ghost predicate PairsMeet(key: Fields, given: Fields, n: string) {
    exists w :: Pairs(key, n, w) && Pairs(given, n, w)
  }

  /** The pairings can be told apart: one relates a text the other does not, or both relate it, to different texts. */
  ghost predicate PairsDiffer(key: Fields, given: Fields) {
    || (exists n, w :: Pairs(key, n, w) && forall u :: !Pairs(given, n, u))
    || (exists n, w :: Pairs(given, n, w) && forall u :: !Pairs(key, n, u))
    || (exists n, w, u :: Pairs(key, n, w) && Pairs(given, n, u) && w != u)
  }

  /** A nonempty answer may be given the points: for matching, if the pairs can agree in some order of the walk. */
  ghost predicate MayDeserve(item: Item, answer: Fields) {
    if item.questionType.Matching? then PairsAgree(item.answerKey, answer) else Correct(item, answer)
  }

  /** It may be given nothing. */
  ghost predicate MayMiss(item: Item, answer: Fields) {
    if item.questionType.Matching? then PairsDiffer(item.answerKey, answer) else !Correct(item, answer)
  }

  function PairTexts(m: Fields): map<string, string> {
    PrintedFields(PairFields(Field(m, "pairs")))
  }

  lemma PairsAgreeIff(key: Fields, given: Fields)
    ensures PairsAgree(key, given) <==> CanAgree(PairTexts(key), PairTexts(given), Normalize)
  {
    hide Normalize, Pairs, PrintedFields, PairFields, Field;
    var f, g := PairTexts(key), PairTexts(given);
    forall n, w ensures (Pairs(key, n, w) <==> Entry(f, n, w)) && (Pairs(given, n, w) <==> Entry(g, n, w)) {
      PairsIff(key, n, w);
      PairsIff(given, n, w);
    }
    forall n ensures PairsMeet(key, given, n) <==> Meet(f, g, Normalize, n) {
      if w :| Pairs(key, n, w) && Pairs(given, n, w) {
        assert Entry(f, n, w) && Entry(g, n, w);
      }
      if k, l :| Names(f, Normalize, k, n) && Names(g, Normalize, l, n) && f[k] == g[l] {
        assert Entry(f, n, f[k]) && Entry(g, n, f[k]);
      }
    }
    forall k, n | Names(f, Normalize, k, n) ensures Entry(f, n, f[k]) {
    }
    forall k, n | Names(g, Normalize, k, n) ensures Entry(g, n, g[k]) {
    }
  }

  lemma PairsDifferIff(key: Fields, given: Fields)
    ensures PairsDiffer(key, given) <==> CanDiffer(PairTexts(key), PairTexts(given), Normalize)
  {
    hide Normalize, Pairs, PrintedFields, PairFields, Field;
    var f, g := PairTexts(key), PairTexts(given);
    forall n, w ensures (Pairs(key, n, w) <==> Entry(f, n, w)) && (Pairs(given, n, w) <==> Entry(g, n, w)) {
      PairsIff(key, n, w);
      PairsIff(given, n, w);
    }
    forall k, n | Names(f, Normalize, k, n) ensures Entry(f, n, f[k]) {
    }
    forall k, n | Names(g, Normalize, k, n) ensures Entry(g, n, g[k]) {
    }
    EntriesDiffer(f, g);
  }

  /** Maps can differ exactly when their entries do. */
  lemma EntriesDiffer(f: map<string, string>, g: map<string, string>)
    ensures CanDiffer(f, g, Normalize) <==>
      || (exists n, w :: Entry(f, n, w) && forall u :: !Entry(g, n, u))
      || (exists n, w :: Entry(g, n, w) && forall u :: !Entry(f, n, u))
      || (exists n, w, u :: Entry(f, n, w) && Entry(g, n, u) && w != u)
  {
    hide Normalize;
    forall k, n | Names(f, Normalize, k, n) ensures Entry(f, n, f[k]) {
    }
    forall k, n | Names(g, Normalize, k, n) ensures Entry(g, n, g[k]) {
    }
  }

  lemma CorrectChoices(item: Item, answer: Fields)
    requires item.questionType.MultipleChoice? || item.questionType.Ordering?
    ensures Correct(item, answer) <==>
            SameOrderedOrSet(item.questionType, FirstNonEmpty(item.answerKey, "answers", "order"),
                             FirstNonEmpty(answer, "answers", "order"))
  {
    hide Offers, FirstNonEmpty, SameOrderedOrSet, SameText, Normalize;
    var e, a := FirstNonEmpty(item.answerKey, "answers", "order"), FirstNonEmpty(answer, "answers", "order");
    forall xs ensures (Offers(item.answerKey, xs) <==> xs == e) && (Offers(answer, xs) <==> xs == a) {
      OffersIff(item.answerKey, xs);
      OffersIff(answer, xs);
    }
    assert Offers(item.answerKey, e) && Offers(answer, a);
    if item.questionType.MultipleChoice? {
      SameSetIsSameMultiset(e, a);
    } else {
      SameOrderIsPairwise(e, a);
      forall s, t ensures SameText(s, t) <==> Normalize(s) == Normalize(t) {
        SameTextIff(s, t);
      }
      assert SameInOrder(e, a) <==> SameOrderedOrSet(Ordering, e, a);
    }
  }

  /**
    The grades the code may give a nonempty answer to an objective item are exactly the points, if it may deserve
    them, and nothing, if it may miss them: any order for multiple choice, the same order for ordering.
   */
  lemma FullCreditIff(item: Item, answer: Fields, grade: (int, bool))
    requires |answer| > 0 && Objective(item.questionType)
    ensures MayGrade(item, answer, grade) <==>
            grade.1 && ((grade.0 == item.points && MayDeserve(item, answer)) || (grade.0 == 0 && MayMiss(item, answer)))
  {
    hide Normalize, NormalizedScalar, CanAgree, CanDiffer, PairsAgree, PairsDiffer, PrintedFields, Renames, SameOrderedOrSet, FirstNonEmpty,
      SameAnswer, Accepted, StringSlice, Offers, SameInOrder, Field;
    match item.questionType
    case SingleChoice => SameAnswerIff(item.answerKey, answer);
    case TrueFalse => SameAnswerIff(item.answerKey, answer);
    case ShortAnswer =>
      SameAnswerIff(item.answerKey, answer);
      AcceptedIff(item.answerKey, answer);
      NormalizedTwice(Field(item.answerKey, "answer"));
    case MultipleChoice => CorrectChoices(item, answer);
    case Ordering => CorrectChoices(item, answer);
    case Matching => MatchingGrades(item, answer, grade);
    case _ =>
  }

  lemma GradesMeanCredit(item: Item, answer: Fields)
    ensures forall grade :: MayGrade(item, answer, grade) ==>
      && (grade.1 <==> Objective(item.questionType)) && (grade.0 == item.points || grade.0 == 0)
      && (|answer| > 0 && grade.1 ==>
            (grade.0 != 0 ==> MayDeserve(item, answer)) && (grade.0 != item.points ==> MayMiss(item, answer)))
  {
    hide MayGrade, MayDeserve, MayMiss;
    forall grade | MayGrade(item, answer, grade)
      ensures (grade.1 <==> Objective(item.questionType)) && (grade.0 == item.points || grade.0 == 0)
      ensures |answer| > 0 && grade.1 ==>
        (grade.0 != 0 ==> MayDeserve(item, answer)) && (grade.0 != item.points ==> MayMiss(item, answer))
    {
      GradeRange(item, answer, grade);
      if |answer| > 0 && grade.1 {
        FullCreditIff(item, answer, grade);
      }
    }
  }

  lemma NormalizedTwice(v: Json)
    ensures Normalize(NormalizedScalar(v)) == NormalizedScalar(v)
  {
    NormalizeIdempotent(Print(v));
  }

  lemma MatchingGrades(item: Item, answer: Fields, grade: (int, bool))
    requires |answer| > 0 && item.questionType.Matching?
    ensures MayGrade(item, answer, grade) <==>
            grade.1 && ((grade.0 == item.points && MayDeserve(item, answer)) || (grade.0 == 0 && MayMiss(item, answer)))
  {
    hide CanAgree, CanDiffer, PairsAgree, PairsDiffer, PrintedFields, Renames, Correct;
    var a, b := Field(item.answerKey, "pairs"), Field(answer, "pairs");
    var f, g := PairTexts(item.answerKey), PairTexts(answer);
    PairsAgreeIff(item.answerKey, answer);
    PairsDifferIff(item.answerKey, answer);
    RenamedAlikeIff(f, g, Normalize);
    RenamedApartIff(f, g, Normalize);
    if key, given :| Normalizes(a, key) && Normalizes(b, given) && grade == (if key == given then item.points else 0, true) {
      assert Renames(f, Normalize, key) && Renames(g, Normalize, given);
    }
    if MayDeserve(item, answer) && grade == (item.points, true) {
      var r :| Renames(f, Normalize, r) && Renames(g, Normalize, r);
      assert Normalizes(a, r) && Normalizes(b, r);
    }
    if MayMiss(item, answer) && grade == (0, true) {
      var r, q :| Renames(f, Normalize, r) && Renames(g, Normalize, q) && r != q;
      assert Normalizes(a, r) && Normalizes(b, q);
    }
  }

  /** The pairing relates no text to two. */
  ghost predicate PairsDistinct(m: Fields) {
    forall n, w, u :: Pairs(m, n, w) && Pairs(m, n, u) ==> w == u
  }

  /** Pairs that relate no text to two are graded one way only: by whether they are the same pairs. */
  lemma DistinctPairsSettle(item: Item, answer: Fields)
    requires item.questionType.Matching? && PairsDistinct(item.answerKey) && PairsDistinct(answer)
    ensures (MayDeserve(item, answer) <==> Correct(item, answer)) && (MayMiss(item, answer) <==> !Correct(item, answer))
  {
    hide Pairs;
    var key := item.answerKey;
    if MayDeserve(item, answer) {
      forall n, w ensures Pairs(key, n, w) <==> Pairs(answer, n, w) {
        if Pairs(key, n, w) || Pairs(answer, n, w) {
          assert PairsMeet(key, answer, n);
        }
      }
    }
    if Correct(item, answer) {
      forall n, w | Pairs(key, n, w) ensures PairsMeet(key, answer, n) {
      }
    }
    if !MayMiss(item, answer) {
      forall n, w ensures Pairs(key, n, w) <==> Pairs(answer, n, w) {
      }
    }
  }

  /** An answer with another number of choices than the key never earns the points. */
  lemma OtherCountNeverEarns(item: Item, answer: Fields, e: seq<string>, a: seq<string>, grade: (int, bool))
    requires |answer| > 0 && (item.questionType.MultipleChoice? || item.questionType.Ordering?)
    requires Offers(item.answerKey, e) && Offers(answer, a) && |e| != |a|
    ensures MayGrade(item, answer, grade) <==> grade == (0, true)
  {
    hide Offers, FirstNonEmpty, MayGrade, SameInOrder;
    FullCreditIff(item, answer, grade);
    OffersIff(item.answerKey, e);
    OffersIff(answer, a);
    if Correct(item, answer) {
      var x, y :| Offers(item.answerKey, x) && Offers(answer, y) && |x| == |y| by {
        hide Offers;
        MatchedSizes(item, answer);
      }
      OffersIff(item.answerKey, x);
      OffersIff(answer, y);
    }
  }

  lemma MatchedSizes(item: Item, answer: Fields)
    requires (item.questionType.MultipleChoice? || item.questionType.Ordering?) && Correct(item, answer)
    ensures exists x, y :: Offers(item.answerKey, x) && Offers(answer, y) && |x| == |y|
  {
    hide Offers, SameText;
    if item.questionType.MultipleChoice? {
      var e, a :| Offers(item.answerKey, e) && Offers(answer, a) && multiset(e) == multiset(a);
      assert |multiset(e)| == |multiset(a)|;
    }
  }

  /** Each element of a list says the text beside it. */
  ghost predicate AllSay(elems: seq<Json>, xs: seq<string>) {
    |xs| == |elems| && forall i :: 0 <= i < |xs| ==> Says(elems[i], xs[i])
  }

  /**
    Two lists of choices: multiple choice earns the points exactly if their texts are the same ones as often each,
    ordering exactly if they are the same position by position.
   */
  lemma ListsEarnIff(item: Item, answer: Fields, key: Json, given: Json, e: seq<string>, a: seq<string>, grade: (int, bool))
    requires |answer| > 0 && (item.questionType.MultipleChoice? || item.questionType.Ordering?)
    requires Holds(item.answerKey, "answers", key) && Holds(answer, "answers", given)
    requires key.List? && key.elems != [] && AllSay(key.elems, e) && given.List? && given.elems != [] && AllSay(given.elems, a)
    ensures MayGrade(item, answer, grade) <==>
            grade == (if (if item.questionType.Ordering? then e == a else multiset(e) == multiset(a)) then item.points else 0, true)
  {
    hide Says, MayGrade, Field;
    ListOffers(item.answerKey, key, e);
    ListOffers(answer, given, a);
    FullCreditIff(item, answer, grade);
    forall x ensures (Offers(item.answerKey, x) <==> x == e) && (Offers(answer, x) <==> x == a) {
      OffersIff(item.answerKey, x);
      OffersIff(item.answerKey, e);
      OffersIff(answer, x);
      OffersIff(answer, a);
    }
    if item.questionType.Ordering? {
      SaidInOrder(key.elems, e, given.elems, a);
    }
  }

  lemma ListOffers(m: Fields, v: Json, xs: seq<string>)
    requires Holds(m, "answers", v) && v.List? && v.elems != [] && AllSay(v.elems, xs)
    ensures Offers(m, xs)
  {
    hide Says;
    HoldsIff(m, "order", Field(m, "order"));
    assert !Choices(v, []) && Choices(v, xs);
  }

  /** Texts already read are the same exactly when they read alike. */
  lemma SaidInOrder(es: seq<Json>, e: seq<string>, gs: seq<Json>, a: seq<string>)
    requires AllSay(es, e) && AllSay(gs, a)
    ensures SameInOrder(e, a) <==> e == a
  {
    hide Says, SameText, Normalize, NormalizedScalar;
    forall i | 0 <= i < |e| ensures Normalize(e[i]) == e[i] {
      SaysIff(es[i], e[i]);
      NormalizedTwice(es[i]);
    }
    forall i | 0 <= i < |a| ensures Normalize(a[i]) == a[i] {
      SaysIff(gs[i], a[i]);
      NormalizedTwice(gs[i]);
    }
    forall s, t ensures SameText(s, t) <==> Normalize(s) == Normalize(t) {
      SameTextIff(s, t);
    }
  }

  // ---- The code's loops ----

  method CollectStringSlice(v: Json) returns (result: seq<string>)
    ensures result == StringSlice(v) && Choices(v, result)
  {
    hide Choices;
    ChoicesIff(v, StringSlice(v));
    match v
    case Strings(texts, _) => result := texts;
    case List(elems, _) =>
      result := [];
      for i := 0 to |elems|
        invariant result == NormalizedAll(elems)[..i]
      {
        result := result + [NormalizedScalar(elems[i])];
      }
    case Null => result := [];
    case _ => result := [NormalizedScalar(v)];
  }

  method CompareOrderedOrSet(t: QuestionType, expected: seq<string>, actual: seq<string>) returns (same: bool)
    ensures same == SameOrderedOrSet(t, expected, actual)
  {
    hide Normalize, SortBy;
    if |expected| != |actual| {
      return false;
    }
    if t.Ordering? {
      for i := 0 to |expected|
        invariant forall k :: 0 <= k < i ==> Normalize(expected[k]) == Normalize(actual[k])
      {
        if Normalize(expected[i]) != Normalize(actual[i]) {
          assert NormalizedTexts(expected)[i] != NormalizedTexts(actual)[i];
          return false;
        }
      }
      return true;
    }
    var left, right := SortBy(expected, LexLeq), SortBy(actual, LexLeq);
    return left == right;
  }

  /** The loop that renames keys one entry at a time. */
  method CollectRenamed(m: map<string, string>, name: string -> string) returns (result: map<string, string>)
    ensures Renames(m, name, result)
  {
    result := map[];
    var keys := m.Keys;
    while keys != {}
      invariant keys <= m.Keys
      invariant forall k, n :: Names(m, name, k, n) && k !in keys ==> n in result
      invariant forall n :: n in result ==> exists k :: k !in keys && Names(m, name, k, n) && result[n] == m[k]
    {
      var key :| key in keys;
      assert Names(m, name, key, name(key));
      result := result[name(key) := m[key]];
      keys := keys - {key};
    }
  }

  method CollectNormalizedMap(v: Json) returns (result: map<string, string>)
    ensures Normalizes(v, result)
  {
    result := CollectRenamed(PrintedFields(PairFields(v)), Normalize);
  }

  method MatchesAccepted(actual: string, accepted: seq<string>) returns (found: bool)
    ensures found == (actual in NormalizedTexts(accepted))
  {
    ghost var texts := NormalizedTexts(accepted);
    for i := 0 to |accepted|
      invariant actual !in texts[..i]
    {
      var text := Normalize(accepted[i]);
      assert text == texts[i];
      if actual == text {
        return true;
      }
      assert texts[..i + 1] == texts[..i] + [texts[i]];
    }
    assert texts[..|accepted|] == texts;
    return false;
  }

  method FirstNonEmptySlice(m: Fields, key: string, fallback: string) returns (xs: seq<string>)
    ensures xs == FirstNonEmpty(m, key, fallback)
  {
    xs := CollectStringSlice(Field(m, key));
    if |xs| == 0 {
      xs := CollectStringSlice(Field(m, fallback));
    }
  }

  method GradeObjectiveAnswer(item: Item, answer: Fields) returns (score: int, graded: bool)
    ensures MayGrade(item, answer, (score, graded))
    ensures graded <==> Objective(item.questionType)
    ensures score == item.points || score == 0
    ensures |answer| > 0 && graded ==> (score != 0 ==> MayDeserve(item, answer)) && (score != item.points ==> MayMiss(item, answer))
  {
    hide MayDeserve, MayMiss, NormalizedScalar, Normalize, SameOrderedOrSet, FirstNonEmpty, StringSlice, Renames;
    GradesMeanCredit(item, answer);
    if |answer| == 0 {
      return 0, Objective(item.questionType);
    }
    var credit := false;
    match item.questionType {
      case SingleChoice | TrueFalse =>
        credit := NormalizedScalar(Field(item.answerKey, "answer")) == NormalizedScalar(Field(answer, "answer"));
      case ShortAnswer =>
        var actual := NormalizedScalar(Field(answer, "answer"));
        credit := actual == Normalize(NormalizedScalar(Field(item.answerKey, "answer")));
        if !credit {
          var accepted := CollectStringSlice(Field(item.answerKey, "accepted_answers"));
          credit := MatchesAccepted(actual, accepted);
        }
      case MultipleChoice | Ordering =>
        var expected := FirstNonEmptySlice(item.answerKey, "answers", "order");
        var actual := FirstNonEmptySlice(answer, "answers", "order");
        credit := CompareOrderedOrSet(item.questionType, expected, actual);
      case Matching =>
        var key := CollectNormalizedMap(Field(item.answerKey, "pairs"));
        var given := CollectNormalizedMap(Field(answer, "pairs"));
        credit := key == given;
      case _ =>
        return 0, false;
    }
    return if credit then item.points else 0, true;
  }
}

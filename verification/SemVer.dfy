/**
 Version texts and constraints of src/bundle_resolver.cpp.

 A version is read as stream extraction reads `int . int . int`: white space may
 stand before each part, numbers may carry a sign and leading zeros, and nothing but
 white space may follow. The order is item 11 of Semantic Versioning 2.0.0 on core versions.
 */
module SemVer {
  import opened Base
  import opened Decimal

  const INT_MAX := 0x7fff_ffff

  datatype Version = Version(major: nat, minor: nat, patch: nat)

  /** `in >> int`: fails without digits and outside the range of a 32-bit int. */
  function TakeInt(s: string): Option<(int, string)> {
    var t := SkipSpaces(s);
    var negative := t != "" && t[0] == '-';
    var u := if t != "" && (t[0] == '-' || t[0] == '+') then t[1..] else t;
    var n := DigitRun(u);
    if n == 0 then None
    else
      var v: int := Value(u[..n]);
      if negative then (if v > INT_MAX + 1 then None else Some((-v, u[n..])))
      else if v > INT_MAX then None
      else Some((v, u[n..]))
  }

  /** `in >> char` expecting a dot. */
  function TakeDot(s: string): Option<string> {
    var t := SkipSpaces(s);
    if t != "" && t[0] == '.' then Some(t[1..]) else None
  }

  /** One number that must not be negative. */
  function TakeNat(s: string): Option<(nat, string)> {
    match TakeInt(s)
    case None => None
    case Some((v, rest)) => if v < 0 then None else Some((v, rest))
  }

  const PARTS := ["major", "minor", "patch"]

  /** `n` numbers with a dot between each two. */
  function TakeNumbers(s: string, n: nat): Option<(seq<nat>, string)>
    decreases n
  {
    if n == 0 then Some(([], s))
    else
      match TakeNat(s)
      case None => None
      case Some((v, rest)) =>
        if n == 1 then Some(([v], rest))
        else
          match TakeDot(rest)
          case None => None
          case Some(t) =>
            match TakeNumbers(t, n - 1)
            case None => None
            case Some((more, end)) => Some(([v] + more, end))
  }

  function ParseVersion(text: string): Option<Version> {
    match TakeNumbers(text, |PARTS|)
    case None => None
    case Some((ns, rest)) =>
      if |ns| == 3 && SkipSpaces(rest) == "" then Some(Version(ns[0], ns[1], ns[2])) else None
  }

  /** Negative, zero or positive, as compare returns it. */
  function Compare(a: Version, b: Version): int {
    if a.major != b.major then (if a.major < b.major then -1 else 1)
    else if a.minor != b.minor then (if a.minor < b.minor then -1 else 1)
    else if a.patch == b.patch then 0 else if a.patch < b.patch then -1 else 1
  }

  /** compare is a total order on versions. */
  lemma CompareIsTotalOrder(a: Version, b: Version, c: Version)
    ensures Compare(a, b) == -Compare(b, a)
    ensures Compare(a, b) == 0 <==> a == b
    ensures Compare(a, b) <= 0 && Compare(b, c) <= 0 ==> Compare(a, c) <= 0
  {
  }

  /** The canonical text of a version. */
  function Text(v: Version): string {
    Digits(v.major) + "." + Digits(v.minor) + "." + Digits(v.patch)
  }

  predicate StartsWithDigit(s: string) {
    s != "" && IsDigit(s[0])
  }

  lemma TakeDigits(n: nat, rest: string)
    requires n <= INT_MAX && !StartsWithDigit(rest)
    ensures TakeNat(Digits(n) + rest) == Some((n, rest))
  {
    var s := Digits(n) + rest;
    DigitsAreDigits(n);
    assert IsDigit(Digits(n)[0]) && s[0] == Digits(n)[0];
    assert SkipSpaces(s) == s;
    assert forall i :: 0 <= i < |Digits(n)| ==> IsDigit(s[i]);
    assert rest != "" ==> !IsDigit(s[|Digits(n)|]);
    assert DigitRun(s) == |Digits(n)|;
    assert s[..|Digits(n)|] == Digits(n) && s[|Digits(n)|..] == rest;
  }

  lemma DotThen(rest: string)
    ensures TakeDot("." + rest) == Some(rest)
  {
    assert SkipSpaces("." + rest) == "." + rest;
  }

  /** One more number in front. */
  lemma TakeOneMore(n: nat, text: string, k: nat, ns: seq<nat>, end: string)
    requires n <= INT_MAX && k >= 1 && TakeNumbers(text, k) == Some((ns, end))
    ensures TakeNumbers(Digits(n) + ("." + text), k + 1) == Some(([n] + ns, end))
  {
    TakeDigits(n, "." + text);
    DotThen(text);
  }

  lemma TakeLast(n: nat)
    requires n <= INT_MAX
    ensures TakeNumbers(Digits(n), 1) == Some(([n], ""))
  {
    TakeDigits(n, "");
    assert Digits(n) + "" == Digits(n);
  }

  /** Every version whose numbers fit an int is read back from its canonical text. */
  lemma VersionsRoundTrip(v: Version)
    requires v.major <= INT_MAX && v.minor <= INT_MAX && v.patch <= INT_MAX
    ensures ParseVersion(Text(v)) == Some(v)
  {
    var p := Digits(v.patch);
    var minor := Digits(v.minor) + ("." + p);
    TakeLast(v.patch);
    TakeOneMore(v.minor, p, 1, [v.patch], "");
    TakeOneMore(v.major, minor, 2, [v.minor] + [v.patch], "");
    TextParts(Digits(v.major), Digits(v.minor), p);
  }

  lemma TextParts(a: string, b: string, c: string)
    ensures a + "." + b + "." + c == a + ("." + (b + ("." + c)))
  {
  }

  // ---------------------------------------------------------------- what is read as a version

  /** A number as it may be written: white space, a sign, digits. */
  datatype Numeral = Numeral(spaces: string, sign: string, digits: string)

  ghost predicate AllSpaces(s: string) {
    forall i :: 0 <= i < |s| ==> IsSpace(s[i])
  }

  ghost predicate IsNumeral(x: Numeral) {
    AllSpaces(x.spaces) && x.sign in {"", "+", "-"} && x.digits != "" && AllDigits(x.digits)
  }

  function NumeralText(x: Numeral): string {
    x.spaces + (x.sign + x.digits)
  }

  ghost function NumeralValue(x: Numeral): int
    requires IsNumeral(x)
  {
    var v: int := Value(x.digits);
    if x.sign == "-" then -v else v
  }

  lemma SignedIsTaken(sign: string, digits: string, rest: string)
    requires sign in {"", "+", "-"} && digits != "" && AllDigits(digits) && (rest == "" || !IsDigit(rest[0]))
    ensures var t := sign + (digits + rest);
            var v: int := if sign == "-" then 0 - Value(digits) else Value(digits);
            && t != "" && !IsSpace(t[0])
            && TakeInt(t) == if -0x8000_0000 <= v <= 0x7fff_ffff then Some((v, rest)) else None
  {
    var u := digits + rest;
    var t := sign + u;
    DigitsThenOther(digits, rest);
    assert sign == "" ==> t == u;
    assert sign != "" ==> t[0] == sign[0] && t[1..] == u;
    assert IsDigit(t[0]) || t[0] == '+' || t[0] == '-';
    assert !IsSpace(t[0]);
    assert SkipSpaces(t) == t;
    assert u[|digits|..] == rest;
  }

  lemma SpaceBeforeInt(spaces: string, t: string)
    requires AllSpaces(spaces) && t != "" && !IsSpace(t[0])
    ensures TakeInt(spaces + t) == TakeInt(t)
  {
    SpacesAreSkipped(spaces, t);
    assert SkipSpaces(t) == t;
  }

  /** A numeral is read as its value when that fits a version, whatever follows. */
  lemma NumeralIsTaken(x: Numeral, rest: string)
    requires IsNumeral(x) && (rest == "" || !IsDigit(rest[0]))
    ensures TakeNat(NumeralText(x) + rest) ==
            if 0 <= NumeralValue(x) <= 0x7fff_ffff then Some((NumeralValue(x), rest)) else None
  {
    var t := x.sign + (x.digits + rest);
    SignedIsTaken(x.sign, x.digits, rest);
    SpaceBeforeInt(x.spaces, t);
    Regroup(x.spaces, x.sign, x.digits, rest);
  }

  lemma Regroup(a: string, b: string, c: string, d: string)
    ensures (a + (b + c)) + d == a + (b + (c + d))
  {
  }

  lemma DotIsTaken(spaces: string, rest: string)
    requires AllSpaces(spaces)
    ensures TakeDot(spaces + ("." + rest)) == Some(rest)
    ensures (spaces + ("." + rest))[0] == '.' || IsSpace((spaces + ("." + rest))[0])
  {
    assert ("." + rest)[0] == '.' && ("." + rest)[1..] == rest;
    SpacesAreSkipped(spaces, "." + rest);
    assert spaces != "" ==> (spaces + ("." + rest))[0] == spaces[0];
  }

  /** One more numeral and a dot in front. */
  lemma NumbersGrow(x: Numeral, spaces: string, rest: string, n: nat)
    requires IsNumeral(x) && AllSpaces(spaces) && n >= 1
    ensures var taken := TakeNumbers(rest, n);
            TakeNumbers(NumeralText(x) + (spaces + ("." + rest)), n + 1) ==
            if 0 <= NumeralValue(x) <= 0x7fff_ffff && taken.Some?
            then Some(([NumeralValue(x)] + taken.value.0, taken.value.1)) else None
  {
    DotIsTaken(spaces, rest);
    NumeralIsTaken(x, spaces + ("." + rest));
  }

  /**
   What is read as a version: three numerals with dots between them, white space anywhere
   before a part, each within 0 and the largest int, and nothing but white space at the end.
   */
  lemma VersionForms(x: Numeral, before: string, y: Numeral, between: string, z: Numeral, end: string)
    requires IsNumeral(x) && IsNumeral(y) && IsNumeral(z) && AllSpaces(before) && AllSpaces(between)
    requires end == "" || !IsDigit(end[0])
    ensures ParseVersion(NumeralText(x) + (before + ("." + (NumeralText(y) + (between + ("." + (NumeralText(z) + end))))))) ==
            if && 0 <= NumeralValue(x) <= 0x7fff_ffff && 0 <= NumeralValue(y) <= 0x7fff_ffff && 0 <= NumeralValue(z) <= 0x7fff_ffff
               && SkipSpaces(end) == ""
            then Some(Version(NumeralValue(x), NumeralValue(y), NumeralValue(z))) else None
  {
    NumeralIsTaken(z, end);
    NumbersGrow(y, between, NumeralText(z) + end, 1);
    NumbersGrow(x, before, NumeralText(y) + (between + ("." + (NumeralText(z) + end))), 2);
  }

  // ---------------------------------------------------------------- constraints

  /** First version the caret range of `base` excludes. */
  function CaretUpper(base: Version): Version {
    if base.major > 0 then Version(base.major + 1, 0, 0)
    else if base.minor > 0 then Version(0, base.minor + 1, 0)
    else Version(0, 0, base.patch + 1)
  }

  /** A caret range holds the versions from its base that agree with it up to the first non-zero part. */
  lemma CaretRange(base: Version, v: Version)
    ensures Compare(v, base) >= 0 && Compare(v, CaretUpper(base)) < 0 <==>
            && Compare(v, base) >= 0
            && v.major == base.major
            && (base.major == 0 ==> v.minor == base.minor)
            && (base.major == 0 && base.minor == 0 ==> v == base)
  {
  }

  datatype Operator = Caret | AtLeast | AtMost | Above | Below | Exactly

  /** The operator an atom starts with, tried in the order of the code, and the text after it. */
  function SplitAtom(atom: string): (Operator, string) {
    if "^" <= atom then (Caret, atom[1..])
    else if ">=" <= atom then (AtLeast, atom[2..])
    else if "<=" <= atom then (AtMost, atom[2..])
    else if ">" <= atom then (Above, atom[1..])
    else if "<" <= atom then (Below, atom[1..])
    else if "=" <= atom then (Exactly, atom[1..])
    else (Exactly, atom)
  }

  predicate Means(op: Operator, v: Version, b: Version) {
    match op
    case Caret => Compare(v, b) >= 0 && Compare(v, CaretUpper(b)) < 0
    case AtLeast => Compare(v, b) >= 0
    case AtMost => Compare(v, b) <= 0
    case Above => Compare(v, b) > 0
    case Below => Compare(v, b) < 0
    case Exactly => Compare(v, b) == 0
  }

  /** satisfies_atom. */
  predicate SatisfiesAtom(v: Version, atom: string) {
    if atom == "" || atom == "*" then true
    else
      var (op, text) := SplitAtom(atom);
      match ParseVersion(text) case None => false case Some(b) => Means(op, v, b)
  }

  lemma TextStartsWithDigit(v: Version)
    ensures Text(v) != "" && IsDigit(Text(v)[0])
  {
    DigitsAreDigits(v.major);
    assert IsDigit(Digits(v.major)[0]) && Text(v)[0] == Digits(v.major)[0];
  }

  function Sign(op: Operator): string {
    match op
    case Caret => "^"
    case AtLeast => ">="
    case AtMost => "<="
    case Above => ">"
    case Below => "<"
    case Exactly => "="
  }

  lemma SplitSign(op: Operator, text: string)
    requires text != "" && IsDigit(text[0])
    ensures SplitAtom(Sign(op) + text) == (op, text) && SplitAtom(text) == (Exactly, text)
  {
    var atom, n := Sign(op) + text, |Sign(op)|;
    assert atom[n..] == text && atom[n] == text[0];
    assert forall i :: 0 <= i < n ==> atom[i] == Sign(op)[i];
  }

  /** An operator sign before a version text means the operator's comparison; no sign means equality. */
  lemma OperatorMeaning(op: Operator, v: Version, b: Version)
    requires b.major <= INT_MAX && b.minor <= INT_MAX && b.patch <= INT_MAX
    ensures SatisfiesAtom(v, Sign(op) + Text(b)) <==> Means(op, v, b)
    ensures SatisfiesAtom(v, Text(b)) <==> v == b
  {
    VersionsRoundTrip(b);
    TextStartsWithDigit(b);
    SplitSign(op, Text(b));
    assert (Sign(op) + Text(b))[0] != '*' && Text(b)[0] != '*';
  }

  /** Earlier by the order of item 11 of Semantic Versioning 2.0.0: major, then minor, then patch. */
  predicate Earlier(v: Version, b: Version) {
    || v.major < b.major
    || (v.major == b.major && v.minor < b.minor)
    || (v.major == b.major && v.minor == b.minor && v.patch < b.patch)
  }

  /** What every form of atom admits, on the parts of the versions. */
  lemma AtomsMean(v: Version, b: Version)
    requires b.major <= INT_MAX && b.minor <= INT_MAX && b.patch <= INT_MAX
    ensures SatisfiesAtom(v, "") && SatisfiesAtom(v, "*")
    ensures SatisfiesAtom(v, ">=" + Text(b)) <==> !Earlier(v, b)
    ensures SatisfiesAtom(v, "<=" + Text(b)) <==> !Earlier(b, v)
    ensures SatisfiesAtom(v, ">" + Text(b)) <==> Earlier(b, v)
    ensures SatisfiesAtom(v, "<" + Text(b)) <==> Earlier(v, b)
    ensures SatisfiesAtom(v, "=" + Text(b)) <==> v == b
    ensures SatisfiesAtom(v, Text(b)) <==> v == b
    ensures SatisfiesAtom(v, "^" + Text(b)) <==>
            && !Earlier(v, b) && v.major == b.major
            && (b.major == 0 ==> v.minor == b.minor)
            && (b.major == 0 && b.minor == 0 ==> v.patch == b.patch)
  {
    OperatorMeaning(AtLeast, v, b);
    OperatorMeaning(AtMost, v, b);
    OperatorMeaning(Above, v, b);
    OperatorMeaning(Below, v, b);
    OperatorMeaning(Exactly, v, b);
    OperatorMeaning(Caret, v, b);
    CaretRange(b, v);
  }

  lemma OtherStart(sign: string, atom: string)
    requires sign != "" && (atom == "" || atom[0] != sign[0])
    ensures !(sign <= atom)
  {
  }

  /** How an atom is split when a sign of one character, or of two, stands before any text. */
  lemma SplitForms(text: string)
    ensures SplitAtom("^" + text) == (Caret, text) && SplitAtom("=" + text) == (Exactly, text)
    ensures SplitAtom(">=" + text) == (AtLeast, text) && SplitAtom("<=" + text) == (AtMost, text)
  {
    assert ("^" + text)[1..] == text && ("=" + text)[1..] == text;
    assert (">=" + text)[2..] == text && ("<=" + text)[2..] == text;
    OtherStart("^", "=" + text);
    OtherStart(">=", "=" + text);
    OtherStart("<=", "=" + text);
    OtherStart(">", "=" + text);
    OtherStart("<", "=" + text);
    OtherStart("^", ">=" + text);
    OtherStart("^", "<=" + text);
    OtherStart(">=", "<=" + text);
  }

  lemma SplitStrict(text: string)
    requires text == "" || text[0] != '='
    ensures SplitAtom(">" + text) == (Above, text) && SplitAtom("<" + text) == (Below, text)
  {
    assert (">" + text)[1..] == text && ("<" + text)[1..] == text;
    assert text != "" ==> (">" + text)[1] == text[0] && ("<" + text)[1] == text[0];
    OtherStart("^", ">" + text);
    OtherStart("^", "<" + text);
    OtherStart("<=", ">" + text);
    OtherStart(">=", "<" + text);
    OtherStart(">", "<" + text);
  }

  lemma SplitBare(text: string)
    requires text == "" || text[0] !in {'^', '>', '<', '='}
    ensures SplitAtom(text) == (Exactly, text)
  {
    OtherStart("^", text);
    OtherStart(">=", text);
    OtherStart("<=", text);
    OtherStart(">", text);
    OtherStart("<", text);
    OtherStart("=", text);
  }

  /** An atom whose text is no version is never met, with any sign and without one. */
  lemma UnreadableAtoms(v: Version, text: string)
    requires ParseVersion(text).None?
    ensures !SatisfiesAtom(v, "^" + text) && !SatisfiesAtom(v, ">=" + text) && !SatisfiesAtom(v, "<=" + text)
    ensures !SatisfiesAtom(v, "=" + text)
    ensures text == "" || text[0] != '=' ==> !SatisfiesAtom(v, ">" + text) && !SatisfiesAtom(v, "<" + text)
    ensures text != "" && text[0] !in {'^', '>', '<', '='} && text != "*" ==> !SatisfiesAtom(v, text)
  {
    SplitForms(text);
    assert ("^" + text)[0] == '^' && (">=" + text)[0] == '>' && ("<=" + text)[0] == '<' && ("=" + text)[0] == '=';
    assert (">" + text)[0] == '>' && ("<" + text)[0] == '<' && "*"[0] == '*';
    if text == "" || text[0] != '=' {
      SplitStrict(text);
    }
    if text == "" || text[0] !in {'^', '>', '<', '='} {
      SplitBare(text);
    }
  }

  /** Length of the leading run of characters that are not white space. */
  function WordRun(s: string): (n: nat)
    ensures n <= |s|
  {
    if s != "" && !IsSpace(s[0]) then 1 + WordRun(s[1..]) else 0
  }

  /** The atoms `in >> atom` delivers. */
  function Words(s: string): seq<string>
    decreases |s|
  {
    var t := SkipSpaces(s);
    if t == "" then [] else [t[..WordRun(t)]] + Words(t[WordRun(t)..])
  }

  lemma {:induction false} WordRunStops(word: string, rest: string)
    requires (forall i :: 0 <= i < |word| ==> !IsSpace(word[i])) && (rest == "" || IsSpace(rest[0]))
    ensures WordRun(word + rest) == |word|
  {
    if word == "" {
      assert word + rest == rest;
    } else {
      assert (word + rest)[0] == word[0] && (word + rest)[1..] == word[1..] + rest;
      WordRunStops(word[1..], rest);
    }
  }

  /** A constraint is cut at white space, and every other character belongs to an atom. */
  lemma WordsMean(word: string, space: char, rest: string)
    requires word != "" && (forall i :: 0 <= i < |word| ==> !IsSpace(word[i])) && IsSpace(space)
    ensures Words("") == [] && Words([space] + rest) == Words(rest)
    ensures Words(word) == [word] && Words(word + ([space] + rest)) == [word] + Words(rest)
    ensures IsSpace(space) <==> space in {' ', '\t', '\n', '\r', 11 as char, 12 as char}
  {
    var after := [space] + rest;
    assert after[1..] == rest;
    assert Words(after) == Words(rest);
    WordRunStops(word, "");
    WordRunStops(word, after);
    assert word + "" == word && word[|word|..] == "";
    assert SkipSpaces(word) == word;
    var t := word + after;
    assert t[0] == word[0] && SkipSpaces(t) == t;
    assert t[..|word|] == word && t[|word|..] == after;
  }

  /** satisfies: the version must parse and meet every atom, and there must be one. */
  predicate Satisfies(text: string, constraint: string) {
    var v := ParseVersion(text);
    v.Some? && Words(constraint) != [] && forall a :: a in Words(constraint) ==> SatisfiesAtom(v.value, a)
  }

  /** The extraction loop of satisfies. */
  method AllWords(constraint: string, meets: string -> bool) returns (holds: bool)
    ensures holds <==> Words(constraint) != [] && forall a :: a in Words(constraint) ==> meets(a)
  {
    var input, any := constraint, false;
    ghost var seen: seq<string> := [];
    while SkipSpaces(input) != ""
      invariant Words(constraint) == seen + Words(input)
      invariant any <==> seen != []
      invariant forall a :: a in seen ==> meets(a)
      decreases |input|
    {
      var t := SkipSpaces(input);
      var atom := t[..WordRun(t)];
      assert Words(constraint) == (seen + [atom]) + Words(t[WordRun(t)..]);
      any := true;
      if !meets(atom) {
        assert atom in seen + [atom];
        return false;
      }
      seen, input := seen + [atom], t[WordRun(t)..];
    }
    assert Words(constraint) == seen;
    return any;
  }

  method CheckSatisfies(text: string, constraint: string) returns (holds: bool)
    ensures holds <==> Satisfies(text, constraint)
  {
    var v := ParseVersion(text);
    if v.None? {
      return false;
    }
    holds := AllWords(constraint, a => SatisfiesAtom(v.value, a));
  }

  // ---------------------------------------------------------------- choice

  /** What a candidate is worth: nothing unless it parses and satisfies the constraint. */
  function Rank(text: string, constraint: string): Option<Version> {
    if Satisfies(text, constraint) then ParseVersion(text) else None
  }

  function Ranks(candidates: seq<string>, constraint: string): seq<Option<Version>> {
    seq(|candidates|, i requires 0 <= i < |candidates| => Rank(candidates[i], constraint))
  }

  /** Index the selection loop keeps after `n` candidates: a later one replaces an earlier one only when strictly higher. */
  function Best(ranks: seq<Option<Version>>, n: nat): (best: Option<nat>)
    requires n <= |ranks|
    ensures best.Some? ==> best.value < n && ranks[best.value].Some?
  {
    if n == 0 then None
    else
      var best := Best(ranks, n - 1);
      if ranks[n - 1].Some? && (best.None? || Compare(ranks[n - 1].value, ranks[best.value].value) > 0) then Some(n - 1)
      else best
  }

  /** The choice is the first of the highest compatible candidates; there is one exactly when some candidate is compatible. */
  lemma {:induction false} BestIsHighest(ranks: seq<Option<Version>>, n: nat, i: nat)
    requires i < n <= |ranks| && ranks[i].Some?
    ensures Best(ranks, n).Some?
    ensures var b := Best(ranks, n).value;
            Compare(ranks[i].value, ranks[b].value) <= 0 && (i < b ==> Compare(ranks[i].value, ranks[b].value) < 0)
  {
    if i < n - 1 {
      BestIsHighest(ranks, n - 1, i);
    } else if Best(ranks, n - 1).Some? {
      BestIsHighest(ranks, n - 1, Best(ranks, n - 1).value);
    }
  }

  function Choose(candidates: seq<string>, constraint: string): Option<string> {
    match Best(Ranks(candidates, constraint), |candidates|) case None => None case Some(i) => Some(candidates[i])
  }

  /** The chosen candidate satisfies the constraint and no compatible candidate is higher; none is chosen only when none is compatible. */
  lemma ChosenIsHighest(candidates: seq<string>, constraint: string, c: string)
    requires c in candidates && Satisfies(c, constraint)
    ensures var chosen := Choose(candidates, constraint);
            && chosen.Some? && chosen.value in candidates && Satisfies(chosen.value, constraint)
            && Compare(ParseVersion(c).value, ParseVersion(chosen.value).value) <= 0
  {
    var ranks := Ranks(candidates, constraint);
    var i :| 0 <= i < |candidates| && candidates[i] == c;
    assert ranks[i] == Rank(c, constraint);
    BestIsHighest(ranks, |ranks|, i);
    ChosenSatisfies(candidates, constraint);
  }

  lemma ChosenSatisfies(candidates: seq<string>, constraint: string)
    ensures var chosen := Choose(candidates, constraint);
            chosen.Some? ==> chosen.value in candidates && Satisfies(chosen.value, constraint)
  {
    var best := Best(Ranks(candidates, constraint), |candidates|);
    if best.Some? {
      assert Ranks(candidates, constraint)[best.value] == Rank(candidates[best.value], constraint);
    }
  }

  method SelectBest(candidates: seq<string>, constraint: string) returns (chosen: Option<string>)
    ensures chosen == Choose(candidates, constraint)
  {
    var best: Option<nat> := None;
    var version := Version(0, 0, 0);
    ghost var ranks := Ranks(candidates, constraint);
    for i := 0 to |candidates|
      invariant best == Best(ranks, i)
      invariant best.Some? ==> ranks[best.value] == Some(version)
    {
      var rank := CheckRank(candidates[i], constraint);
      if rank.Some? && (best.None? || Compare(rank.value, version) > 0) {
        best, version := Some(i), rank.value;
      }
    }
    chosen := match best case None => None case Some(i) => Some(candidates[i]);
  }

  method CheckRank(text: string, constraint: string) returns (rank: Option<Version>)
    ensures rank == Rank(text, constraint)
  {
    var parsed := ParseVersion(text);
    var holds := CheckSatisfies(text, constraint);
    rank := if parsed.Some? && holds then parsed else None;
  }
}

/**
 The canonical JSON encoder of src/bundle.cpp: no white space, object members in
 bytewise key order, and the escapes of section 7 of RFC 8259. Characters stand for bytes.

 `Canonical` is what the encoder writes; the writer class builds it by appending.
 The main result is that the encoding is unambiguous.
 */
module CanonicalJson {
  import opened Base
  import opened Decimal
  import opened Json

  // ---------------------------------------------------------------- key order

  /** utf8_byte_less. */
  predicate Less(a: string, b: string) {
    b != "" && (a == "" || a[0] < b[0] || (a[0] == b[0] && Less(a[1..], b[1..])))
  }

  lemma {:induction false} LessIsTotal(a: string, b: string)
    ensures !Less(a, a)
    ensures a != b ==> Less(a, b) != Less(b, a)
  {
    if a != "" {
      LessIsTotal(a[1..], a[1..]);
      if b != "" {
        LessIsTotal(a[1..], b[1..]);
        if a[0] == b[0] {
          assert a == [a[0]] + a[1..] && b == [b[0]] + b[1..];
        }
      }
    }
  }

  lemma {:induction false} LessIsTransitive(a: string, b: string, c: string)
    requires Less(a, b) && Less(b, c)
    ensures Less(a, c)
  {
    if a != "" && a[0] == b[0] == c[0] {
      LessIsTransitive(a[1..], b[1..], c[1..]);
    }
  }

  /** Bytewise order: a proper prefix comes first, otherwise the first byte that differs decides. */
  lemma {:induction false} LessMeans(a: string, b: string)
    ensures Less(a, b) <==>
            a < b || exists i :: 0 <= i < |a| && i < |b| && a[..i] == b[..i] && a[i] < b[i]
  {
    if a != "" && b != "" && a[0] == b[0] {
      LessMeans(a[1..], b[1..]);
      assert a < b <==> a[1..] < b[1..] by {
        assert a == [a[0]] + a[1..] && b == [b[0]] + b[1..];
      }
      if i :| 0 <= i < |a[1..]| && i < |b[1..]| && a[1..][..i] == b[1..][..i] && a[1..][i] < b[1..][i] {
        assert a[..i + 1] == [a[0]] + a[1..][..i] && b[..i + 1] == [b[0]] + b[1..][..i];
        assert a[i + 1] < b[i + 1];
      }
      if i :| 0 <= i < |a| && i < |b| && a[..i] == b[..i] && a[i] < b[i] {
        assert i > 0;
        assert a[1..][..i - 1] == a[..i][1..] && b[1..][..i - 1] == b[..i][1..];
        assert a[1..][i - 1] < b[1..][i - 1];
      }
    } else if a != "" && b != "" && a[0] < b[0] {
      assert a[..0] == b[..0];
    } else if a != "" && b != "" {
      assert forall i :: 0 < i <= |a| && i <= |b| ==> a[..i][0] == a[0] && b[..i][0] == b[0];
    }
  }

  ghost predicate Ascending(keys: seq<string>) {
    forall i, j :: 0 <= i < j < |keys| ==> Less(keys[i], keys[j])
  }

  lemma {:induction false} LeastExists(keys: set<string>)
    requires keys != {}
    ensures exists k :: k in keys && forall x :: x in keys && x != k ==> Less(k, x)
    decreases |keys|
  {
    var a :| a in keys;
    var rest := keys - {a};
    if rest == {} {
      assert keys == {a};
    } else {
      LeastExists(rest);
      var b :| b in rest && forall x :: x in rest && x != b ==> Less(b, x);
      LessIsTotal(a, b);
      if Less(a, b) {
        forall x | x in keys && x != a
          ensures Less(a, x)
        {
          if x != b { LessIsTransitive(a, b, x); }
        }
      } else {
        assert forall x :: x in keys && x != b ==> x == a || x in rest;
      }
    }
  }

  /** The keys in ascending order; `AscendingIsUnique` says there is only one such sequence. */
  ghost function SortedKeys(keys: set<string>): (sorted: seq<string>)
    ensures Ascending(sorted) && (forall k :: k in sorted <==> k in keys)
    decreases |keys|
  {
    if keys == {} then []
    else
      LeastExists(keys);
      var k :| k in keys && forall x :: x in keys && x != k ==> Less(k, x);
      var rest := SortedKeys(keys - {k});
      assert forall i :: 0 <= i < |rest| ==> rest[i] in keys - {k};
      [k] + rest
  }

  lemma AscendingIsDistinct(keys: seq<string>)
    requires Ascending(keys)
    ensures forall i, j :: 0 <= i < j < |keys| ==> keys[i] != keys[j]
  {
    forall i, j | 0 <= i < j < |keys|
      ensures keys[i] != keys[j]
    {
      LessIsTotal(keys[i], keys[i]);
    }
  }

  lemma {:induction false} AscendingIsUnique(a: seq<string>, b: seq<string>)
    requires Ascending(a) && Ascending(b) && forall k :: k in a <==> k in b
    ensures a == b
  {
    assert forall i :: 0 <= i < |a| ==> a[i] in b;
    assert forall i :: 0 <= i < |b| ==> b[i] in a;
    if a != [] {
      LessIsTotal(a[0], b[0]);
      assert a[0] == b[0];
      forall k
        ensures k in a[1..] <==> k in b[1..]
      {
        LessIsTotal(k, k);
        assert k in a[1..] ==> k in a;
        assert k in b[1..] ==> k in b;
        assert k in a && k != a[0] ==> k in a[1..];
        assert k in b && k != b[0] ==> k in b[1..];
        assert a[0] !in a[1..] && b[0] !in b[1..] by { LessIsTotal(a[0], a[0]); }
      }
      AscendingIsUnique(a[1..], b[1..]);
      assert a == [a[0]] + a[1..] && b == [b[0]] + b[1..];
    }
  }

  /** std::sort over the member names, whatever order they come in. */
  method SortKeys(keys: seq<string>) returns (sorted: seq<string>)
    requires forall i, j :: 0 <= i < j < |keys| ==> keys[i] != keys[j]
    ensures sorted == SortedKeys(set k | k in keys)
  {
    sorted := [];
    for i := 0 to |keys|
      invariant Ascending(sorted)
      invariant forall k :: k in sorted <==> k in keys[..i]
    {
      sorted := InsertKey(sorted, keys[i]);
      assert keys[..i + 1] == keys[..i] + [keys[i]];
    }
    assert keys[..|keys|] == keys;
    AscendingIsUnique(sorted, SortedKeys(set k | k in keys));
  }

  method InsertKey(sorted: seq<string>, key: string) returns (longer: seq<string>)
    requires Ascending(sorted) && key !in sorted
    ensures Ascending(longer)
    ensures forall k :: k in longer <==> k in sorted || k == key
  {
    var p := 0;
    while p < |sorted| && Less(sorted[p], key)
      invariant p <= |sorted|
      invariant forall i :: 0 <= i < p ==> Less(sorted[i], key)
    {
      p := p + 1;
    }
    forall i | p <= i < |sorted|
      ensures Less(key, sorted[i])
    {
      LessIsTotal(sorted[p], key);
      if i > p { LessIsTransitive(key, sorted[p], sorted[i]); }
    }
    longer := sorted[..p] + [key] + sorted[p..];
    assert sorted == sorted[..p] + sorted[p..];
  }

  // ---------------------------------------------------------------- encoding

  function Hex(n: nat): char
    requires n < 16
  {
    if n < 10 then ('0' as int + n) as char else ('a' as int + n - 10) as char
  }

  function Escape(c: char): string {
    if c == '\"' then "\\\""
    else if c == '\\' then "\\\\"
    else if c == 8 as char then "\\b"
    else if c == 12 as char then "\\f"
    else if c == '\n' then "\\n"
    else if c == '\r' then "\\r"
    else if c == '\t' then "\\t"
    else if c < 32 as char then "\\u00" + [Hex(c as int / 16), Hex(c as int % 16)]
    else [c]
  }

  function Escaped(s: string): string {
    if s == "" then "" else Escape(s[0]) + Escaped(s[1..])
  }

  function Quoted(s: string): string {
    "\"" + Escaped(s) + "\""
  }

  function Decimals(n: int): string {
    if n < 0 then "-" + Digits(-n) else Digits(n)
  }

  ghost function Canonical(v: Json): string
    decreases v
  {
    match v
    case Null => "null"
    case Bool(flag) => if flag then "true" else "false"
    case Int(n) => Decimals(n)
    case Str(s) => Quoted(s)
    case Arr(items) => "[" + (if items == [] then "" else Canonical(items[0]) + MoreItems(items[1..])) + "]"
    case Obj(members) =>
      var keys := SortedKeys(members.Keys);
      "{" + (if keys == [] then "" else Member(v, keys[0]) + MoreMembers(v, keys[1..])) + "}"
  }

  ghost function MoreItems(items: seq<Json>): string
    decreases items
  {
    if items == [] then "" else "," + Canonical(items[0]) + MoreItems(items[1..])
  }

  ghost function Member(v: Json, key: string): string
    requires v.Obj? && key in v.members
    decreases v, 0
  {
    Quoted(key) + ":" + Canonical(v.members[key])
  }

  ghost function MoreMembers(v: Json, keys: seq<string>): string
    requires v.Obj? && forall k :: k in keys ==> k in v.members
    decreases v, 1 + |keys|
  {
    if keys == [] then "" else "," + Member(v, keys[0]) + MoreMembers(v, keys[1..])
  }

  lemma Assoc(a: string, b: string, c: string)
    ensures (a + b) + c == a + (b + c)
  {
  }

  lemma Append(a: string, b: string, c: string, d: string)
    ensures ((a + b) + c) + d == a + ((b + c) + d)
  {
  }

  /** Appending the parts of a bracketed list one by one. */
  lemma Bracket(before: string, open: string, head: string, tail: string, close: string)
    ensures (((before + open) + head) + tail) + close == before + ((open + (head + tail)) + close)
  {
  }

  lemma Cancel(p: string, a: string, b: string)
    requires p + a == p + b
    ensures a == b
  {
    assert a == (p + a)[|p|..] && b == (p + b)[|p|..];
  }

  class CanonicalWriter {
    var output: string

    constructor ()
      ensures output == ""
    {
      output := "";
    }

    method AppendString(s: string)
      modifies this
      ensures output == old(output) + Quoted(s)
    {
      output := output + "\"";
      ghost var all := output + Escaped(s);
      assert s[0..] == s;
      for i := 0 to |s|
        invariant output + Escaped(s[i..]) == all
      {
        assert s[i..][0] == s[i] && s[i..][1..] == s[i + 1..];
        Assoc(output, Escape(s[i]), Escaped(s[i + 1..]));
        output := output + Escape(s[i]);
      }
      assert output == all;
      Append(old(output), "\"", Escaped(s), "\"");
      output := output + "\"";
    }

    method AppendCanonical(v: Json)
      modifies this
      ensures output == old(output) + Canonical(v)
      decreases v
    {
      match v
      case Null => output := output + "null";
      case Bool(flag) => output := output + if flag then "true" else "false";
      case Int(n) => output := output + Decimals(n);
      case Str(s) => AppendString(s);
      case Arr(items) => AppendArray(v);
      case Obj(members) => AppendObject(v);
    }

    method AppendArray(v: Json)
      requires v.Arr?
      modifies this
      ensures output == old(output) + Canonical(v)
      decreases v, 0
    {
      var items := v.items;
      if items == [] {
        output := output + "[]";
        return;
      }
      output := output + "[";
      AppendCanonical(items[0]);
      ghost var all := output + MoreItems(items[1..]);
      for i := 1 to |items|
        invariant output + MoreItems(items[i..]) == all
      {
        assert items[i..][0] == items[i] && items[i..][1..] == items[i + 1..];
        Append(output, ",", Canonical(items[i]), MoreItems(items[i + 1..]));
        output := output + ",";
        AppendCanonical(items[i]);
      }
      assert output == all;
      Bracket(old(output), "[", Canonical(items[0]), MoreItems(items[1..]), "]");
      output := output + "]";
    }

    method AppendObject(v: Json)
      requires v.Obj?
      modifies this
      ensures output == old(output) + Canonical(v)
      decreases v, 0
    {
      var keys := SortedMemberNames(v.members);
      if keys == [] {
        output := output + "{}";
        return;
      }
      output := output + "{";
      AppendMember(v, keys[0]);
      AppendMoreMembers(v, keys[1..]);
      Bracket(old(output), "{", Member(v, keys[0]), MoreMembers(v, keys[1..]), "}");
      output := output + "}";
    }

    method AppendMoreMembers(v: Json, keys: seq<string>)
      requires v.Obj? && forall k :: k in keys ==> k in v.members
      modifies this
      ensures output == old(output) + MoreMembers(v, keys)
      decreases v, 0, 1
    {
      ghost var all := output + MoreMembers(v, keys);
      assert keys[0..] == keys;
      for i := 0 to |keys|
        invariant output + MoreMembers(v, keys[i..]) == all
      {
        assert keys[i..][0] == keys[i] && keys[i..][1..] == keys[i + 1..];
        Append(output, ",", Member(v, keys[i]), MoreMembers(v, keys[i + 1..]));
        output := output + ",";
        AppendMember(v, keys[i]);
      }
    }

    method AppendMember(v: Json, key: string)
      requires v.Obj? && key in v.members
      modifies this
      ensures output == old(output) + Member(v, key)
      decreases v, 0, 0
    {
      AppendString(key);
      output := output + ":";
      AppendCanonical(v.members[key]);
    }
  }

  /** getMemberNames: every key once, in an order the encoder must not depend on. */
  method MemberNames(members: map<string, Json>) returns (names: seq<string>)
    ensures forall k :: k in names <==> k in members
    ensures forall i, j :: 0 <= i < j < |names| ==> names[i] != names[j]
  {
    names := [];
    var left := members.Keys;
    while left != {}
      invariant left <= members.Keys
      invariant forall k :: k in names <==> k in members && k !in left
      invariant forall i, j :: 0 <= i < j < |names| ==> names[i] != names[j]
      decreases |left|
    {
      var k :| k in left;
      names := names + [k];
      left := left - {k};
    }
  }

  method SortedMemberNames(members: map<string, Json>) returns (keys: seq<string>)
    ensures keys == SortedKeys(members.Keys)
  {
    var names := MemberNames(members);
    keys := SortKeys(names);
    assert (set k | k in names) == members.Keys;
  }

  /** The members stand in ascending order of their keys, whatever list gives that order. */
  lemma MembersAscend(v: Json, keys: seq<string>)
    requires v.Obj? && Ascending(keys) && (set k | k in keys) == v.members.Keys
    ensures Canonical(v) == "{" + (if keys == [] then "" else Member(v, keys[0]) + MoreMembers(v, keys[1..])) + "}"
  {
    assert forall k :: k in SortedKeys(v.members.Keys) <==> k in v.members;
    AscendingIsUnique(keys, SortedKeys(v.members.Keys));
  }

  /** The form of each escape: two characters for the seven named ones, six for other controls, none for the rest. */
  lemma EscapeForms(c: char)
    ensures Escape('\"') == "\\\"" && Escape('\\') == "\\\\"
    ensures Escape(8 as char) == "\\b" && Escape(12 as char) == "\\f"
    ensures Escape('\n') == "\\n" && Escape('\r') == "\\r" && Escape('\t') == "\\t"
    ensures c >= 32 as char && c !in {'\"', '\\'} ==> Escape(c) == [c]
    ensures c < 32 as char && c !in {8 as char, 12 as char, '\n', '\r', '\t'} ==>
              && |Escape(c)| == 6 && Escape(c)[..4] == "\\u00"
              && (Escape(c)[4] == if c < 16 as char then '0' else '1')
              && (var d := c as int % 16; Escape(c)[5] == if d < 10 then ('0' as int + d) as char else ('a' as int + d - 10) as char)
  {
  }

  // ---------------------------------------------------------------- reading strings back

  function HexValue(c: char): Option<nat> {
    if '0' <= c <= '9' then Some(c as int - '0' as int)
    else if 'a' <= c <= 'f' then Some(c as int - 'a' as int + 10)
    else if 'A' <= c <= 'F' then Some(c as int - 'A' as int + 10)
    else None
  }

  /** The character that four hexadecimal digits stand for. */
  function Coded(t: string): Option<char>
    requires |t| == 4
  {
    match (HexValue(t[0]), HexValue(t[1]), HexValue(t[2]), HexValue(t[3]))
    case (Some(a), Some(b), Some(c), Some(d)) =>
      var v := ((a * 16 + b) * 16 + c) * 16 + d;
      if v < 0xD800 then Some(v as char) else None
    case _ => None
  }

  /** One character of a string body by section 7 of RFC 8259, and what follows it. */
  function Unescape(t: string): Option<(char, string)> {
    if t == "" || t[0] == '\"' || t[0] < 32 as char then None
    else if t[0] != '\\' then Some((t[0], t[1..]))
    else if |t| < 2 then None
    else if t[1] in {'\"', '\\', '/'} then Some((t[1], t[2..]))
    else if t[1] == 'b' then Some((8 as char, t[2..]))
    else if t[1] == 'f' then Some((12 as char, t[2..]))
    else if t[1] == 'n' then Some(('\n', t[2..]))
    else if t[1] == 'r' then Some(('\r', t[2..]))
    else if t[1] == 't' then Some(('\t', t[2..]))
    else if t[1] == 'u' && |t| >= 6 then
      match Coded(t[2..6]) case None => None case Some(c) => Some((c, t[6..]))
    else None
  }

  function Unescaped(t: string): Option<string>
    decreases |t|
  {
    if t == "" then Some("")
    else
      match Unescape(t)
      case None => None
      case Some((c, rest)) =>
        if |rest| >= |t| then None
        else match Unescaped(rest) case None => None case Some(more) => Some([c] + more)
  }

  lemma HexReadsBack(n: nat)
    requires n < 16
    ensures HexValue(Hex(n)) == Some(n)
  {
  }

  /** An escape stands for its character, whatever follows. */
  lemma EscapeReadsBack(c: char, rest: string)
    ensures Unescape(Escape(c) + rest) == Some((c, rest)) && |Escape(c)| >= 1
  {
    var t := Escape(c) + rest;
    assert t[|Escape(c)|..] == rest;
    if |Escape(c)| == 6 {
      HexReadsBack(c as int / 16);
      HexReadsBack(c as int % 16);
      assert t[2..6] == ['0', '0', Hex(c as int / 16), Hex(c as int % 16)];
    }
  }

  /** A JSON reader gets back the string that was escaped. */
  lemma {:induction false} EscapedReadsBack(s: string)
    ensures Unescaped(Escaped(s)) == Some(s)
  {
    if s != "" {
      EscapeReadsBack(s[0], Escaped(s[1..]));
      EscapedReadsBack(s[1..]);
      assert [s[0]] + s[1..] == s;
    }
  }

  // ---------------------------------------------------------------- unambiguity

  /** What may follow a value: the end, or a delimiter. */
  ghost predicate Delimited(rest: string) {
    rest == "" || rest[0] in {',', ']', '}'}
  }

  lemma EscapeIsPrefixFree(c: char, d: char, x: string, y: string)
    requires Escape(c) + x == Escape(d) + y
    ensures c == d && x == y
  {
    var whole := Escape(c) + x;
    assert whole[0] == Escape(c)[0] == Escape(d)[0];
    if |Escape(c)| > 1 && |Escape(d)| > 1 {
      assert whole[1] == Escape(c)[1] == Escape(d)[1];
      if |Escape(c)| == 6 {
        assert whole[4] == Escape(c)[4] == Escape(d)[4];
        assert whole[5] == Escape(c)[5] == Escape(d)[5];
      }
    }
    assert x == whole[|Escape(c)|..] && y == whole[|Escape(d)|..];
  }

  lemma EscapedFirst(s: string, x: string)
    ensures (Escaped(s) + "\"" + x)[0] == '\"' <==> s == ""
  {
    if s != "" {
      assert Escaped(s)[0] == Escape(s[0])[0];
    }
  }

  /** A quoted string ends where it says it ends. */
  lemma {:induction false} QuotedIsPrefixFree(s: string, t: string, x: string, y: string)
    requires Escaped(s) + "\"" + x == Escaped(t) + "\"" + y
    ensures s == t && x == y
  {
    EscapedFirst(s, x);
    EscapedFirst(t, y);
    if s == "" {
      assert Escaped(s) + "\"" + x == "\"" + x && Escaped(t) + "\"" + y == "\"" + y;
      Cancel("\"", x, y);
    } else {
      var s', t' := Escaped(s[1..]) + "\"" + x, Escaped(t[1..]) + "\"" + y;
      Append(Escape(s[0]), Escaped(s[1..]), "\"", x);
      Append(Escape(t[0]), Escaped(t[1..]), "\"", y);
      EscapeIsPrefixFree(s[0], t[0], s', t');
      QuotedIsPrefixFree(s[1..], t[1..], x, y);
      assert s == [s[0]] + s[1..] && t == [t[0]] + t[1..];
    }
  }

  lemma DigitsThenDelimiter(digits: string, rest: string)
    requires AllDigits(digits) && Delimited(rest)
    ensures DigitRun(digits + rest) == |digits|
  {
    var whole := digits + rest;
    assert forall i :: 0 <= i < |digits| ==> IsDigit(whole[i]);
    assert rest != "" ==> !IsDigit(whole[|digits|]);
  }

  lemma DigitsArePrefixFree(n: nat, m: nat, x: string, y: string)
    requires Digits(n) + x == Digits(m) + y && Delimited(x) && Delimited(y)
    ensures n == m && x == y
  {
    DigitsAreDigits(n);
    DigitsAreDigits(m);
    DigitsThenDelimiter(Digits(n), x);
    DigitsThenDelimiter(Digits(m), y);
    var whole := Digits(n) + x;
    assert Digits(n) == whole[..DigitRun(whole)] == Digits(m);
    assert x == whole[DigitRun(whole)..] == y;
  }

  lemma DecimalsArePrefixFree(n: int, m: int, x: string, y: string)
    requires Decimals(n) + x == Decimals(m) + y && Delimited(x) && Delimited(y)
    ensures n == m && x == y
  {
    FirstDecimal(n);
    FirstDecimal(m);
    assert (Decimals(n) + x)[0] == Decimals(n)[0] && (Decimals(m) + y)[0] == Decimals(m)[0];
    if n < 0 {
      Assoc("-", Digits(-n), x);
      Assoc("-", Digits(-m), y);
      Cancel("-", Digits(-n) + x, Digits(-m) + y);
      DigitsArePrefixFree(-n, -m, x, y);
    } else {
      DigitsArePrefixFree(n, m, x, y);
    }
  }

  lemma FirstDecimal(n: int)
    ensures Decimals(n) != "" && (Decimals(n)[0] == '-' <==> n < 0) && (n >= 0 ==> IsDigit(Decimals(n)[0]))
  {
    DigitsAreDigits(if n < 0 then -n else n);
    assert n >= 0 ==> IsDigit(Digits(n)[0]);
  }

  /** The first character tells the kind of value. */
  lemma FirstCharacter(v: Json)
    ensures Canonical(v) != ""
    ensures var c := Canonical(v)[0];
            match v
            case Null => c == 'n'
            case Bool(flag) => c == if flag then 't' else 'f'
            case Int(n) => IsDigit(c) || c == '-'
            case Str(_) => c == '\"'
            case Arr(_) => c == '['
            case Obj(_) => c == '{'
  {
    if v.Int? {
      FirstDecimal(v.number);
    }
  }

  /** Encodings with the same first character are of the same kind; the three literals are whole then. */
  lemma SameKind(v: Json, w: Json, x: string, y: string)
    requires Canonical(v) + x == Canonical(w) + y
    ensures match v
            case Null => w.Null?
            case Bool(flag) => w == v
            case Int(_) => w.Int?
            case Str(_) => w.Str?
            case Arr(_) => w.Arr?
            case Obj(_) => w.Obj?
  {
    FirstCharacter(v);
    FirstCharacter(w);
    assert (Canonical(v) + x)[0] == Canonical(v)[0] && (Canonical(w) + y)[0] == Canonical(w)[0];
  }

  /** Equal encodings, each followed by a delimiter or nothing, are encodings of the same value. */
  lemma {:induction false} CanonicalIsPrefixFree(v: Json, w: Json, x: string, y: string)
    requires Canonical(v) + x == Canonical(w) + y && Delimited(x) && Delimited(y)
    ensures v == w && x == y
    decreases v
  {
    SameKind(v, w, x, y);
    if v.Null? || v.Bool? {
      Cancel(Canonical(v), x, y);
    } else if v.Int? {
      DecimalsArePrefixFree(v.number, w.number, x, y);
    } else if v.Str? {
      StringsArePrefixFree(v.text, w.text, x, y);
    } else if v.Arr? {
      ArraysArePrefixFree(v, w, x, y);
    } else {
      ObjectsArePrefixFree(v, w, x, y);
    }
  }

  lemma StringsArePrefixFree(s: string, t: string, x: string, y: string)
    requires Quoted(s) + x == Quoted(t) + y
    ensures s == t && x == y
  {
    Append("\"", Escaped(s), "\"", x);
    Append("\"", Escaped(t), "\"", y);
    Cancel("\"", Escaped(s) + "\"" + x, Escaped(t) + "\"" + y);
    QuotedIsPrefixFree(s, t, x, y);
  }

  /** A non-empty array after its bracket is its first item and the rest. */
  lemma ArrayText(v: Json, x: string)
    requires v.Arr?
    ensures Canonical(v) + x ==
            "[" + if v.items == [] then "]" + x else Canonical(v.items[0]) + (MoreItems(v.items[1..]) + "]" + x)
  {
    if v.items != [] {
      Unbracket("[", Canonical(v.items[0]), MoreItems(v.items[1..]), "]", x);
    } else {
      Assoc("[", "]", x);
    }
  }

  lemma Unbracket(open: string, head: string, tail: string, close: string, x: string)
    ensures ((open + (head + tail)) + close) + x == open + (head + (tail + close + x))
  {
  }

  /** An array's text after the bracket starts with `]` exactly when the array is empty. */
  lemma ArrayStart(v: Json, x: string)
    requires v.Arr?
    ensures var rest := if v.items == [] then "]" + x else Canonical(v.items[0]) + (MoreItems(v.items[1..]) + "]" + x);
            rest != "" && (rest[0] == ']' <==> v.items == [])
  {
    if v.items != [] {
      FirstCharacter(v.items[0]);
    }
  }

  lemma {:induction false} ArraysArePrefixFree(v: Json, w: Json, x: string, y: string)
    requires v.Arr? && w.Arr? && Canonical(v) + x == Canonical(w) + y
    ensures v == w && x == y
    decreases v, 0
  {
    var a, b := v.items, w.items;
    var p := if a == [] then "]" + x else Canonical(a[0]) + (MoreItems(a[1..]) + "]" + x);
    var q := if b == [] then "]" + y else Canonical(b[0]) + (MoreItems(b[1..]) + "]" + y);
    ArrayText(v, x);
    ArrayText(w, y);
    Cancel("[", p, q);
    ArrayStart(v, x);
    ArrayStart(w, y);
    if a == [] {
      Cancel("]", x, y);
    } else {
      CanonicalIsPrefixFree(a[0], b[0], MoreItems(a[1..]) + "]" + x, MoreItems(b[1..]) + "]" + y);
      ItemsArePrefixFree(v, a[1..], b[1..], x, y);
      assert a == [a[0]] + a[1..] && b == [b[0]] + b[1..];
    }
  }

  lemma {:induction false} ItemsArePrefixFree(v: Json, a: seq<Json>, b: seq<Json>, x: string, y: string)
    requires v.Arr? && (forall i :: 0 <= i < |a| ==> a[i] in v.items)
    requires MoreItems(a) + "]" + x == MoreItems(b) + "]" + y
    ensures a == b && x == y
    decreases v, 0, |a|
  {
    MoreItemsText(a, x);
    MoreItemsText(b, y);
    assert (MoreItems(a) + "]" + x)[0] == if a == [] then ']' else ',';
    assert (MoreItems(b) + "]" + y)[0] == if b == [] then ']' else ',';
    if a == [] {
      Cancel("]", x, y);
    } else {
      var p, q := MoreItems(a[1..]) + "]" + x, MoreItems(b[1..]) + "]" + y;
      Cancel(",", Canonical(a[0]) + p, Canonical(b[0]) + q);
      assert a[0] in v.items;
      CanonicalIsPrefixFree(a[0], b[0], p, q);
      ItemsArePrefixFree(v, a[1..], b[1..], x, y);
      assert a == [a[0]] + a[1..] && b == [b[0]] + b[1..];
    }
  }

  lemma MoreItemsText(a: seq<Json>, x: string)
    ensures MoreItems(a) + "]" + x ==
            if a == [] then "]" + x else "," + (Canonical(a[0]) + (MoreItems(a[1..]) + "]" + x))
  {
    if a == [] {
      assert MoreItems(a) + "]" + x == "]" + x;
    } else {
      Regroup4(",", Canonical(a[0]), MoreItems(a[1..]), "]", x);
    }
  }

  ghost predicate AgreeOn(v: Json, w: Json, keys: seq<string>)
    requires v.Obj? && w.Obj?
  {
    forall k :: k in keys ==> k in v.members && k in w.members && v.members[k] == w.members[k]
  }

  /** The text of members after the opening brace. */
  ghost function MembersText(v: Json, keys: seq<string>, x: string): string
    requires v.Obj? && forall k :: k in keys ==> k in v.members
  {
    if keys == [] then "}" + x else Member(v, keys[0]) + (MoreMembers(v, keys[1..]) + "}" + x)
  }

  lemma ObjectText(v: Json, keys: seq<string>, x: string)
    requires v.Obj? && keys == SortedKeys(v.members.Keys)
    ensures Canonical(v) + x == "{" + MembersText(v, keys, x)
  {
    if keys != [] {
      Unbracket("{", Member(v, keys[0]), MoreMembers(v, keys[1..]), "}", x);
    } else {
      Assoc("{", "}", x);
    }
  }

  lemma MembersStart(v: Json, keys: seq<string>, x: string)
    requires v.Obj? && forall k :: k in keys ==> k in v.members
    ensures MembersText(v, keys, x) != "" && (MembersText(v, keys, x)[0] == '}' <==> keys == [])
  {
  }

  lemma {:induction false} ObjectsArePrefixFree(v: Json, w: Json, x: string, y: string)
    requires v.Obj? && w.Obj? && Canonical(v) + x == Canonical(w) + y
    ensures v == w && x == y
    decreases v, 0
  {
    var a, b := SortedKeys(v.members.Keys), SortedKeys(w.members.Keys);
    ObjectText(v, a, x);
    ObjectText(w, b, y);
    Cancel("{", MembersText(v, a, x), MembersText(w, b, y));
    FirstMembersArePrefixFree(v, w, a, b, x, y);
    SameMembers(v, w, a);
  }

  lemma SameMembers(v: Json, w: Json, keys: seq<string>)
    requires v.Obj? && w.Obj? && AgreeOn(v, w, keys)
    requires (forall k :: k in keys <==> k in v.members) && (forall k :: k in keys <==> k in w.members)
    ensures v == w
  {
    assert v.members.Keys == w.members.Keys;
    assert v.members == w.members;
  }

  lemma {:induction false} FirstMembersArePrefixFree(v: Json, w: Json, a: seq<string>, b: seq<string>, x: string, y: string)
    requires v.Obj? && w.Obj? && (forall k :: k in a ==> k in v.members) && (forall k :: k in b ==> k in w.members)
    requires MembersText(v, a, x) == MembersText(w, b, y)
    ensures a == b && x == y && AgreeOn(v, w, a)
    decreases v, 0, 1 + 2 * |a|
  {
    MembersStart(v, a, x);
    MembersStart(w, b, y);
    if a == [] {
      Cancel("}", x, y);
    } else {
      MemberIsPrefixFree(v, w, a[0], b[0], MoreMembers(v, a[1..]) + "}" + x, MoreMembers(w, b[1..]) + "}" + y);
      MembersArePrefixFree(v, w, a[1..], b[1..], x, y);
      assert a == [a[0]] + a[1..] && b == [b[0]] + b[1..];
    }
  }

  lemma MemberText(v: Json, k: string, p: string)
    requires v.Obj? && k in v.members
    ensures Member(v, k) + p == Quoted(k) + (":" + (Canonical(v.members[k]) + p))
  {
    Regroup(Quoted(k), ":", Canonical(v.members[k]), p);
  }

  lemma Regroup(a: string, b: string, c: string, d: string)
    ensures ((a + b) + c) + d == a + (b + (c + d))
  {
  }

  lemma {:induction false} MemberIsPrefixFree(v: Json, w: Json, k: string, l: string, p: string, q: string)
    requires v.Obj? && w.Obj? && k in v.members && l in w.members
    requires Member(v, k) + p == Member(w, l) + q && Delimited(p) && Delimited(q)
    ensures k == l && v.members[k] == w.members[l] && p == q
    decreases v, 0, 0
  {
    var s, t := Canonical(v.members[k]) + p, Canonical(w.members[l]) + q;
    MemberText(v, k, p);
    MemberText(w, l, q);
    StringsArePrefixFree(k, l, ":" + s, ":" + t);
    Cancel(":", s, t);
    CanonicalIsPrefixFree(v.members[k], w.members[l], p, q);
  }

  lemma MoreMembersText(v: Json, keys: seq<string>, x: string)
    requires v.Obj? && forall k :: k in keys ==> k in v.members
    ensures MoreMembers(v, keys) + "}" + x == if keys == [] then MembersText(v, keys, x) else "," + MembersText(v, keys, x)
  {
    if keys == [] {
      assert MoreMembers(v, keys) + "}" + x == "}" + x;
    } else {
      Regroup4(",", Member(v, keys[0]), MoreMembers(v, keys[1..]), "}", x);
    }
  }

  lemma Regroup4(a: string, b: string, c: string, d: string, e: string)
    ensures (((a + b) + c) + d) + e == a + (b + ((c + d) + e))
  {
  }

  lemma {:induction false} MembersArePrefixFree(v: Json, w: Json, a: seq<string>, b: seq<string>, x: string, y: string)
    requires v.Obj? && w.Obj? && (forall k :: k in a ==> k in v.members) && (forall k :: k in b ==> k in w.members)
    requires MoreMembers(v, a) + "}" + x == MoreMembers(w, b) + "}" + y
    ensures a == b && x == y && AgreeOn(v, w, a)
    decreases v, 0, 2 + 2 * |a|
  {
    MoreMembersText(v, a, x);
    MoreMembersText(w, b, y);
    MembersStart(v, a, x);
    MembersStart(w, b, y);
    if a != [] && b != [] {
      Cancel(",", MembersText(v, a, x), MembersText(w, b, y));
    }
    FirstMembersArePrefixFree(v, w, a, b, x, y);
  }

  /** The canonical encoding determines the document. */
  lemma CanonicalIsUnambiguous(v: Json, w: Json)
    requires Canonical(v) == Canonical(w)
    ensures v == w
  {
    CanonicalIsPrefixFree(v, w, "", "");
  }
}

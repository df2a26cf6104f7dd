/**
 A reader for JSON texts without white space and fractions, by the grammar of RFC 8259:
 the three literal names (section 3), objects (section 4), arrays (section 5), integers
 (section 6) and strings (section 7).

 It is the meaning of what the canonical encoder of src/bundle.cpp writes: reading a
 canonical text gives back the value that was encoded.
 */
module JsonReader {
  import opened Base
  import opened Decimal
  import opened Json
  import opened CanonicalJson

  /** A string after its opening quote, and what follows the closing one. */
  function ReadString(t: string): Option<(string, string)>
    decreases |t|
  {
    if t != "" && t[0] == '\"' then Some(("", t[1..]))
    else
      match Unescape(t)
      case None => None
      case Some((c, rest)) =>
        if |rest| >= |t| then None
        else match ReadString(rest) case None => None case Some((more, end)) => Some(([c] + more, end))
  }

  /** An optional minus and digits without a leading zero. */
  function ReadInteger(t: string): Option<(int, string)> {
    var negative := t != "" && t[0] == '-';
    var u := if negative then t[1..] else t;
    var n := DigitRun(u);
    if n == 0 || (n > 1 && u[0] == '0') then None
    else
      var v: int := Value(u[..n]);
      Some((if negative then -v else v, u[n..]))
  }

  function ReadValue(t: string): Option<(Json, string)>
    decreases |t|, 1
  {
    if "null" <= t then Some((Null, t[4..]))
    else if "true" <= t then Some((Bool(true), t[4..]))
    else if "false" <= t then Some((Bool(false), t[5..]))
    else if t == "" then None
    else if t[0] == '\"' then
      match ReadString(t[1..]) case None => None case Some((s, rest)) => Some((Str(s), rest))
    else if t[0] == '[' then
      if |t| > 1 && t[1] == ']' then Some((Arr([]), t[2..]))
      else match ReadItems(t[1..]) case None => None case Some((items, rest)) => Some((Arr(items), rest))
    else if t[0] == '{' then
      if |t| > 1 && t[1] == '}' then Some((Obj(map[]), t[2..]))
      else match ReadMembers(t[1..]) case None => None case Some((members, rest)) => Some((Obj(members), rest))
    else
      match ReadInteger(t) case None => None case Some((n, rest)) => Some((Int(n), rest))
  }

  /** The values of an array up to its closing bracket. */
  function ReadItems(t: string): Option<(seq<Json>, string)>
    decreases |t|, 2
  {
    match ReadValue(t)
    case None => None
    case Some((v, rest)) =>
      if |rest| >= |t| || rest == "" then None
      else if rest[0] == ']' then Some(([v], rest[1..]))
      else if rest[0] == ',' then
        match ReadItems(rest[1..]) case None => None case Some((more, end)) => Some(([v] + more, end))
      else None
  }

  /** A name, a colon and a value. */
  function ReadMember(t: string): Option<((string, Json), string)>
    decreases |t|, 2
  {
    if t == "" || t[0] != '\"' then None
    else
      match ReadString(t[1..])
      case None => None
      case Some((key, rest)) =>
        if |rest| >= |t| || rest == "" || rest[0] != ':' then None
        else match ReadValue(rest[1..]) case None => None case Some((v, end)) => Some(((key, v), end))
  }

  /** The members of an object up to its closing brace; a repeated name keeps its last value. */
  function ReadMembers(t: string): Option<(map<string, Json>, string)>
    decreases |t|, 3
  {
    match ReadMember(t)
    case None => None
    case Some(((key, v), rest)) =>
      if |rest| >= |t| || rest == "" then None
      else if rest[0] == '}' then Some((map[key := v], rest[1..]))
      else if rest[0] == ',' then
        match ReadMembers(rest[1..]) case None => None case Some((more, end)) => Some((map[key := v] + more, end))
      else None
  }

  // ---------------------------------------------------------------- reading canonical texts

  lemma {:induction false} StringReadsBack(s: string, rest: string)
    ensures ReadString(Escaped(s) + "\"" + rest) == Some((s, rest))
  {
    var t := Escaped(s) + "\"" + rest;
    if s == "" {
      assert t == "\"" + rest;
    } else {
      var tail := Escaped(s[1..]) + "\"" + rest;
      Append(Escape(s[0]), Escaped(s[1..]), "\"", rest);
      assert t == Escape(s[0]) + tail;
      EscapeReadsBack(s[0], tail);
      EscapedFirst(s, rest);
      StringReadsBack(s[1..], rest);
      assert [s[0]] + s[1..] == s;
    }
  }

  lemma {:induction false} NoLeadingZero(n: nat)
    ensures |Digits(n)| > 0 && (Digits(n)[0] == '0' ==> n == 0)
  {
    if n >= 10 {
      NoLeadingZero(n / 10);
    }
  }

  lemma NaturalReadsBack(n: nat, rest: string)
    requires Delimited(rest)
    ensures var t := Digits(n) + rest;
            && DigitRun(t) == |Digits(n)| > 0 && t[..DigitRun(t)] == Digits(n) && t[DigitRun(t)..] == rest
            && Value(Digits(n)) == n && !(|Digits(n)| > 1 && t[0] == '0') && IsDigit(t[0])
  {
    DigitsAreDigits(n);
    DigitsThenDelimiter(Digits(n), rest);
    NoLeadingZero(n);
    assert IsDigit(Digits(n)[0]) && (Digits(n) + rest)[0] == Digits(n)[0];
  }

  lemma IntegerReadsBack(n: int, rest: string)
    requires Delimited(rest)
    ensures ReadInteger(Decimals(n) + rest) == Some((n, rest))
  {
    NaturalReadsBack(if n < 0 then -n else n, rest);
    if n < 0 {
      Assoc("-", Digits(-n), rest);
      assert (Decimals(n) + rest)[1..] == Digits(-n) + rest;
    }
  }

  /** A text whose first character opens no literal name. */
  lemma NoLiteral(t: string)
    requires t != "" && t[0] !in {'n', 't', 'f'}
    ensures !("null" <= t) && !("true" <= t) && !("false" <= t)
  {
    assert "null"[0] == 'n' && "true"[0] == 't' && "false"[0] == 'f';
  }

  lemma LiteralsReadBack(rest: string)
    ensures ReadValue("null" + rest) == Some((Null, rest))
    ensures ReadValue("true" + rest) == Some((Bool(true), rest))
    ensures ReadValue("false" + rest) == Some((Bool(false), rest))
  {
    assert ("null" + rest)[4..] == rest && ("true" + rest)[4..] == rest && ("false" + rest)[5..] == rest;
    assert ("true" + rest)[0] == 't' && ("false" + rest)[0] == 'f' && "null"[0] == 'n' && "true"[0] == 't';
  }

  lemma QuotedReadsBack(s: string, rest: string)
    ensures ReadValue(Quoted(s) + rest) == Some((Str(s), rest))
  {
    var t := Quoted(s) + rest;
    assert t[0] == '\"' && t[1..] == Escaped(s) + "\"" + rest;
    NoLiteral(t);
    StringReadsBack(s, rest);
  }

  lemma NumberReadsBack(n: int, rest: string)
    requires Delimited(rest)
    ensures ReadValue(Decimals(n) + rest) == Some((Int(n), rest))
  {
    var t := Decimals(n) + rest;
    FirstDecimal(n);
    assert t[0] == Decimals(n)[0];
    NoLiteral(t);
    IntegerReadsBack(n, rest);
  }

  lemma NotClosing(v: Json, rest: string)
    ensures var t := Canonical(v) + rest; t != "" && t[0] != ']' && t[0] != '}'
  {
    FirstCharacter(v);
    assert (Canonical(v) + rest)[0] == Canonical(v)[0];
  }

  /** Reading a canonical text gives back the value and what follows it. */
  lemma {:induction false} CanonicalReadsBack(v: Json, rest: string)
    requires Delimited(rest)
    ensures ReadValue(Canonical(v) + rest) == Some((v, rest))
    decreases v, 2
  {
    match v
    case Null => LiteralsReadBack(rest);
    case Bool(flag) => LiteralsReadBack(rest);
    case Int(n) => NumberReadsBack(n, rest);
    case Str(s) => QuotedReadsBack(s, rest);
    case Arr(items) => ArrayReadsBack(v, rest);
    case Obj(members) => ObjectReadsBack(v, rest);
  }

  /** The rest of a list: closed at once, or a comma and the next part. */
  lemma ItemsStep(head: string, after: string, v: Json)
    requires head != "" && after != "" && ReadValue(head + after) == Some((v, after))
    ensures after[0] == ']' ==> ReadItems(head + after) == Some(([v], after[1..]))
    ensures after[0] == ',' && ReadItems(after[1..]).Some? ==>
              ReadItems(head + after) == Some(([v] + ReadItems(after[1..]).value.0, ReadItems(after[1..]).value.1))
  {
  }

  lemma NameThenValue(body: string, key: string, after: string, v: Json, rest: string)
    requires ReadString(body) == Some((key, ":" + after)) && |":" + after| <= |body| && ReadValue(after) == Some((v, rest))
    ensures ReadMember("\"" + body) == Some(((key, v), rest))
  {
    assert ("\"" + body)[1..] == body && (":" + after)[1..] == after;
  }

  lemma MemberParts(name: string, value: string, rest: string)
    ensures ("\"" + name + "\"") + ":" + value + rest == "\"" + (name + "\"" + (":" + (value + rest)))
  {
  }

  lemma MemberStep(key: string, value: string, v: Json, rest: string)
    requires ReadValue(value + rest) == Some((v, rest))
    ensures ReadMember(Quoted(key) + ":" + value + rest) == Some(((key, v), rest))
  {
    MemberParts(Escaped(key), value, rest);
    StringReadsBack(key, ":" + (value + rest));
    NameThenValue(Escaped(key) + "\"" + (":" + (value + rest)), key, value + rest, v, rest);
  }

  lemma MembersStep(head: string, after: string, key: string, v: Json)
    requires head != "" && after != "" && ReadMember(head + after) == Some(((key, v), after))
    ensures after[0] == '}' ==> ReadMembers(head + after) == Some((map[key := v], after[1..]))
    ensures after[0] == ',' && ReadMembers(after[1..]).Some? ==>
              ReadMembers(head + after) == Some((map[key := v] + ReadMembers(after[1..]).value.0, ReadMembers(after[1..]).value.1))
  {
  }

  /** A text in brackets, or in braces. */
  lemma BracketStep(body: string, rest: string, items: seq<Json>)
    ensures ReadValue("[]" + rest) == Some((Arr([]), rest))
    ensures body != "" && body[0] != ']' && ReadItems(body) == Some((items, rest)) ==>
              ReadValue("[" + body) == Some((Arr(items), rest))
  {
    assert ("[]" + rest)[2..] == rest && ("[" + body)[1..] == body;
    NoLiteral("[]" + rest);
    NoLiteral("[" + body);
  }

  lemma BraceStep(body: string, rest: string, members: map<string, Json>)
    ensures ReadValue("{}" + rest) == Some((Obj(map[]), rest))
    ensures body != "" && body[0] != '}' && ReadMembers(body) == Some((members, rest)) ==>
              ReadValue("{" + body) == Some((Obj(members), rest))
  {
    assert ("{}" + rest)[2..] == rest && ("{" + body)[1..] == body;
    NoLiteral("{}" + rest);
    NoLiteral("{" + body);
  }

  /** A bracketed list and what follows it, taken apart. */
  lemma TakeApart(open: string, head: string, tail: string, close: string, rest: string)
    ensures (open + (head + tail) + close) + rest == open + (head + (tail + (close + rest)))
  {
  }

  lemma ArrayReadsBack(v: Json, rest: string)
    requires v.Arr?
    ensures ReadValue(Canonical(v) + rest) == Some((v, rest))
    decreases v, 1
  {
    var items := v.items;
    if items == [] {
      BracketStep("", rest, []);
      assert Canonical(v) == "[]";
    } else {
      var body := Canonical(items[0]) + (MoreItems(items[1..]) + ("]" + rest));
      TakeApart("[", Canonical(items[0]), MoreItems(items[1..]), "]", rest);
      NotClosing(items[0], MoreItems(items[1..]) + ("]" + rest));
      ItemsReadBack(items, rest);
      BracketStep(body, rest, items);
    }
  }

  lemma {:induction false} ItemsReadBack(items: seq<Json>, rest: string)
    requires items != []
    ensures ReadItems(Canonical(items[0]) + (MoreItems(items[1..]) + ("]" + rest))) == Some((items, rest))
    decreases items, 0
  {
    var after := MoreItems(items[1..]) + ("]" + rest);
    MoreItemsStart(items[1..], "]" + rest);
    CanonicalReadsBack(items[0], after);
    FirstCharacter(items[0]);
    ItemsStep(Canonical(items[0]), after, items[0]);
    if |items| == 1 {
      assert items == [items[0]] && ("]" + rest)[1..] == rest;
    } else {
      assert items[1..][1..] == items[2..];
      ItemsReadBack(items[1..], rest);
      assert [items[0]] + items[1..] == items;
    }
  }

  /** What follows the first item: the end of the list, or a comma and the next item. */
  lemma MoreItemsStart(items: seq<Json>, end: string)
    requires end != "" && end[0] == ']'
    ensures var t := MoreItems(items) + end;
            && Delimited(t) && t != ""
            && (items == [] ==> t == end)
            && (items != [] ==> t[0] == ',' && t[1..] == Canonical(items[0]) + (MoreItems(items[1..]) + end))
  {
    if items == [] {
      assert MoreItems(items) + end == end;
    } else {
      CommaFirst(Canonical(items[0]), MoreItems(items[1..]), end);
    }
  }

  lemma CommaFirst(a: string, b: string, end: string)
    ensures ("," + a + b + end)[0] == ',' && ("," + a + b + end)[1..] == a + (b + end)
  {
  }

  lemma ObjectReadsBack(v: Json, rest: string)
    requires v.Obj?
    ensures ReadValue(Canonical(v) + rest) == Some((v, rest))
    decreases v, 1
  {
    var keys := SortedKeys(v.members.Keys);
    if keys == [] {
      BraceStep("", rest, map[]);
      assert Canonical(v) == "{}" && v.members == map[];
    } else {
      var body := Member(v, keys[0]) + (MoreMembers(v, keys[1..]) + ("}" + rest));
      TakeApart("{", Member(v, keys[0]), MoreMembers(v, keys[1..]), "}", rest);
      MembersReadBack(v, keys, rest);
      MemberStarts(v, keys[0], MoreMembers(v, keys[1..]) + ("}" + rest));
      assert Chosen(v, keys) == v.members;
      BraceStep(body, rest, v.members);
    }
  }

  /** The members with these names. */
  ghost function Chosen(v: Json, keys: seq<string>): map<string, Json>
    requires v.Obj? && forall k :: k in keys ==> k in v.members
  {
    map k | k in keys :: v.members[k]
  }

  lemma ChosenGrows(v: Json, keys: seq<string>)
    requires v.Obj? && keys != [] && forall k :: k in keys ==> k in v.members
    ensures |keys| == 1 ==> Chosen(v, keys) == map[keys[0] := v.members[keys[0]]]
    ensures Chosen(v, keys) == map[keys[0] := v.members[keys[0]]] + Chosen(v, keys[1..])
  {
    assert forall k :: k in keys <==> k == keys[0] || k in keys[1..];
  }

  lemma MemberStarts(v: Json, key: string, rest: string)
    requires v.Obj? && key in v.members
    ensures Member(v, key) != "" && (Member(v, key) + rest)[0] == '\"'
  {
  }

  lemma MemberReadsBack(v: Json, key: string, rest: string)
    requires v.Obj? && key in v.members && Delimited(rest)
    ensures ReadMember(Member(v, key) + rest) == Some(((key, v.members[key]), rest))
    decreases v, 0, 0
  {
    CanonicalReadsBack(v.members[key], rest);
    MemberStep(key, Canonical(v.members[key]), v.members[key], rest);
  }

  lemma MoreMembersStart(v: Json, keys: seq<string>, end: string)
    requires v.Obj? && (forall k :: k in keys ==> k in v.members) && end != "" && end[0] == '}'
    ensures var t := MoreMembers(v, keys) + end;
            && Delimited(t) && t != ""
            && (keys == [] ==> t == end)
            && (keys != [] ==> t[0] == ',' && t[1..] == Member(v, keys[0]) + (MoreMembers(v, keys[1..]) + end))
  {
    if keys == [] {
      assert MoreMembers(v, keys) + end == end;
    } else {
      CommaFirst(Member(v, keys[0]), MoreMembers(v, keys[1..]), end);
    }
  }

  lemma {:induction false} MembersReadBack(v: Json, keys: seq<string>, rest: string)
    requires v.Obj? && keys != [] && (forall k :: k in keys ==> k in v.members)
    ensures ReadMembers(Member(v, keys[0]) + (MoreMembers(v, keys[1..]) + ("}" + rest))) == Some((Chosen(v, keys), rest))
    decreases v, 0, 1 + |keys|
  {
    var after := MoreMembers(v, keys[1..]) + ("}" + rest);
    MoreMembersStart(v, keys[1..], "}" + rest);
    MemberReadsBack(v, keys[0], after);
    MemberStarts(v, keys[0], "");
    MembersStep(Member(v, keys[0]), after, keys[0], v.members[keys[0]]);
    ChosenGrows(v, keys);
    if |keys| == 1 {
      assert ("}" + rest)[1..] == rest;
    } else {
      assert keys[1..][1..] == keys[2..];
      MembersReadBack(v, keys[1..], rest);
    }
  }

  /** A whole canonical document is JSON text for exactly the document that was encoded. */
  lemma CanonicalMeansItsDocument(v: Json)
    ensures ReadValue(Canonical(v)) == Some((v, ""))
  {
    CanonicalReadsBack(v, "");
    assert Canonical(v) + "" == Canonical(v);
  }
}

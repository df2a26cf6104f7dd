/**
 The DAGESTATE1 text format of src/reliability.cpp and the file store built on it.

 A record is six newline-terminated header lines (magic, version, epoch, owner,
 checkpoint length, checkpoint digest) followed by the raw checkpoint. The digest
 is a parameter: a function whose results are `DIGEST_LENGTH` long and hold no newline.
 Numbers are read as std::stoull reads them.
 */
module RecordCodec {
  import opened Base
  import opened Decimal
  import opened StateStore

  const MAGIC := "DAGESTATE1"
  const DIGEST_LENGTH := 71
  const FIELDS := ["magic", "version", "epoch", "owner", "length", "checksum"]

  datatype CodecError = BadHeader | BadNumber | LengthMismatch | ChecksumMismatch

  ghost predicate IsDigest(digest: string -> string) {
    forall s :: |digest(s)| == DIGEST_LENGTH && '\n' !in digest(s)
  }

  // ---------------------------------------------------------------- numbers

  /** std::stoull: leading space and sign are allowed, text after the digits is ignored, a negative value wraps. */
  function Stoull(s: string): Option<nat> {
    var t := SkipSpaces(s);
    var negative := t != "" && t[0] == '-';
    var u := if t != "" && (t[0] == '-' || t[0] == '+') then t[1..] else t;
    var n := DigitRun(u);
    if n == 0 then None
    else
      var v := Value(u[..n]);
      if v >= U64 then None else Some(if negative && v > 0 then U64 - v else v)
  }

  /** std::stoull reads back what std::to_string wrote. */
  lemma NumbersRoundTrip(n: nat)
    requires n < U64
    ensures Stoull(Digits(n)) == Some(n) && '\n' !in Digits(n)
  {
    DigitsAreDigits(n);
    var s := Digits(n);
    assert IsDigit(s[0]);
    assert SkipSpaces(s) == s;
    assert DigitRun(s) == |s|;
    assert s[..|s|] == s;
  }

  // ---------------------------------------------------------------- lines

  /** std::getline: fails only when nothing is left; the last line may lack its newline. */
  function TakeLine(s: string): Option<(string, string)> {
    if s == "" then None
    else if s[0] == '\n' then Some(("", s[1..]))
    else
      match TakeLine(s[1..])
      case None => Some((s, ""))
      case Some((line, rest)) => Some(([s[0]] + line, rest))
  }

  function ReadLines(s: string, n: nat): Option<(seq<string>, string)>
    decreases n
  {
    if n == 0 then Some(([], s))
    else
      match TakeLine(s)
      case None => None
      case Some((line, rest)) =>
        match ReadLines(rest, n - 1)
        case None => None
        case Some((lines, end)) => Some(([line] + lines, end))
  }

  function Join(lines: seq<string>): string {
    if lines == [] then "" else lines[0] + "\n" + Join(lines[1..])
  }

  ghost predicate Unbroken(lines: seq<string>) {
    forall i :: 0 <= i < |lines| ==> '\n' !in lines[i]
  }

  lemma {:induction false} TakeWhole(line: string, rest: string)
    requires '\n' !in line
    ensures TakeLine(line + "\n" + rest) == Some((line, rest))
  {
    var s := line + "\n" + rest;
    if line == "" {
      assert s[0] == '\n' && s[1..] == rest;
    } else {
      assert s[0] == line[0] && s[1..] == line[1..] + "\n" + rest;
      TakeWhole(line[1..], rest);
      assert [line[0]] + line[1..] == line;
    }
  }

  lemma {:induction false} TakeUnfinished(line: string)
    requires '\n' !in line && line != ""
    ensures TakeLine(line) == Some((line, ""))
  {
    if |line| > 1 {
      TakeUnfinished(line[1..]);
      assert [line[0]] + line[1..] == line;
    }
  }

  lemma {:induction false} TakenLineIsUnbroken(s: string)
    ensures TakeLine(s).Some? ==> '\n' !in TakeLine(s).value.0
  {
    if s != "" && s[0] != '\n' {
      TakenLineIsUnbroken(s[1..]);
      if TakeLine(s[1..]).None? {
        assert s[1..] == "";
      }
    }
  }

  lemma {:induction false} ReadLinesLength(s: string, n: nat)
    ensures ReadLines(s, n).Some? ==> |ReadLines(s, n).value.0| == n && Unbroken(ReadLines(s, n).value.0)
    decreases n
  {
    if n > 0 && TakeLine(s).Some? {
      ReadLinesLength(TakeLine(s).value.1, n - 1);
      TakenLineIsUnbroken(s);
    }
  }

  lemma {:induction false} ReadJoined(lines: seq<string>, rest: string)
    requires Unbroken(lines)
    ensures ReadLines(Join(lines) + rest, |lines|) == Some((lines, rest))
  {
    if lines == [] {
      assert Join(lines) + rest == rest;
    } else {
      assert Join(lines) + rest == lines[0] + "\n" + (Join(lines[1..]) + rest);
      TakeWhole(lines[0], Join(lines[1..]) + rest);
      ReadJoined(lines[1..], rest);
      assert [lines[0]] + lines[1..] == lines;
    }
  }

  /** `got` is `lines` with the last line cut short. */
  ghost predicate CutShort(got: seq<string>, lines: seq<string>) {
    && |got| == |lines| > 0
    && got[..|lines| - 1] == lines[..|lines| - 1]
    && got[|lines| - 1] <= lines[|lines| - 1]
  }

  /** A cut inside the joined lines is either read as too few lines or cuts the last one short. */
  lemma {:induction false} ReadCut(lines: seq<string>, k: nat)
    requires Unbroken(lines) && k < |Join(lines)|
    ensures var got := ReadLines(Join(lines)[..k], |lines|);
            got.Some? ==> got.value.1 == "" && CutShort(got.value.0, lines)
    ensures k == |Join(lines)| - 1 && lines[|lines| - 1] != "" ==>
              ReadLines(Join(lines)[..k], |lines|) == Some((lines, ""))
    ensures ReadLines(Join(lines)[..k], |lines|) == Some((lines, "")) ==> k == |Join(lines)| - 1
    decreases |lines|
  {
    var cut := Join(lines)[..k];
    var first, rest := lines[0], lines[1..];
    if k <= |first| {
      assert cut == first[..k];
      if k > 0 {
        TakeUnfinished(cut);
        assert k == |first| ==> cut == first;
      }
      assert rest == [] ==> lines == [first] + [];
      assert rest != [] ==> |Join(rest)| > 0;
    } else {
      var j := k - |first| - 1;
      assert cut == first + "\n" + Join(rest)[..j];
      TakeWhole(first, Join(rest)[..j]);
      ReadCut(rest, j);
      var more := ReadLines(Join(rest)[..j], |rest|);
      if more.Some? {
        var got := [first] + more.value.0;
        assert got[..|lines| - 1] == [first] + more.value.0[..|rest| - 1];
        assert lines[..|lines| - 1] == [first] + rest[..|rest| - 1];
        assert got == lines ==> got[1..] == rest;
      }
      assert [first] + rest == lines;
    }
  }

  // ---------------------------------------------------------------- records

  /** What the 64-bit fields of a record can hold. */
  predicate Storable(r: Record<string>) {
    r.version < U64 && r.epoch < U64 && |r.checkpoint| < U64
  }

  function Header(r: Record<string>, digest: string -> string): seq<string> {
    [MAGIC, Digits(r.version), Digits(r.epoch), r.owner, Digits(|r.checkpoint|), digest(r.checkpoint)]
  }

  function Encode(r: Record<string>, digest: string -> string): string {
    Join(Header(r, digest)) + r.checkpoint
  }

  /** The checks decode_record makes once the six header lines are read. */
  function Assemble(lines: seq<string>, checkpoint: string, digest: string -> string): Result<Record<string>, CodecError>
    requires |lines| == 6
  {
    if lines[0] != MAGIC then Failure(BadHeader)
    else
      match (Stoull(lines[1]), Stoull(lines[2]), Stoull(lines[4]))
      case (Some(version), Some(epoch), Some(length)) =>
        if |checkpoint| != length then Failure(LengthMismatch)
        else if digest(checkpoint) != lines[5] then Failure(ChecksumMismatch)
        else Success(Record(version, epoch, lines[3], checkpoint))
      case _ => Failure(BadNumber)
  }

  function Decode(bytes: string, digest: string -> string): Result<Record<string>, CodecError> {
    match ReadLines(bytes, |FIELDS|)
    case None => Failure(BadHeader)
    case Some((lines, rest)) =>
      if |lines| != 6 then Failure(BadHeader) else Assemble(lines, rest, digest)
  }

  /** decode_record: the six header lines are taken off a stream one by one, what is left is the checkpoint. */
  method DecodeRecord(bytes: string, digest: string -> string) returns (answer: Result<Record<string>, CodecError>)
    ensures answer == Decode(bytes, digest)
  {
    var input, lines, i := bytes, [], 0;
    ghost var all := ReadLines(bytes, |FIELDS|);
    assert all.Some? ==> [] + all.value.0 == all.value.0;
    while i < |FIELDS|
      invariant 0 <= i <= |FIELDS| && |lines| == i
      invariant all ==
                match ReadLines(input, |FIELDS| - i)
                case None => None
                case Some((more, end)) => Some((lines + more, end))
    {
      var taken := TakeLine(input);
      if taken.None? {
        return Failure(BadHeader);
      }
      ghost var more := ReadLines(taken.value.1, |FIELDS| - i - 1);
      assert more.Some? ==> lines + ([taken.value.0] + more.value.0) == lines + [taken.value.0] + more.value.0;
      lines, input, i := lines + [taken.value.0], taken.value.1, i + 1;
    }
    assert lines + [] == lines;
    answer := Assemble(lines, input, digest);
  }

  /** The codec round trip holds exactly for owners without a newline. */
  lemma RoundTrip(r: Record<string>, digest: string -> string)
    requires IsDigest(digest) && Storable(r)
    ensures Decode(Encode(r, digest), digest) == Success(r) <==> '\n' !in r.owner
  {
    if '\n' !in r.owner {
      HeaderUnbroken(r, digest);
      ReadJoined(Header(r, digest), r.checkpoint);
      AssembleAccepts(r, digest);
    } else {
      ReadLinesLength(Encode(r, digest), |FIELDS|);
    }
  }

  lemma AssembleAccepts(r: Record<string>, digest: string -> string)
    requires IsDigest(digest) && Storable(r) && '\n' !in r.owner
    ensures Assemble(Header(r, digest), r.checkpoint, digest) == Success(r)
  {
    HeaderUnbroken(r, digest);
  }

  lemma HeaderUnbroken(r: Record<string>, digest: string -> string)
    requires IsDigest(digest) && Storable(r) && '\n' !in r.owner
    ensures Unbroken(Header(r, digest))
    ensures Stoull(Digits(r.version)) == Some(r.version) && Stoull(Digits(r.epoch)) == Some(r.epoch)
    ensures Stoull(Digits(|r.checkpoint|)) == Some(|r.checkpoint|)
  {
    NumbersRoundTrip(r.version);
    NumbersRoundTrip(r.epoch);
    NumbersRoundTrip(|r.checkpoint|);
    assert '\n' !in MAGIC && '\n' !in digest(r.checkpoint);
    LinesUnbroken(MAGIC, Digits(r.version), Digits(r.epoch), r.owner, Digits(|r.checkpoint|), digest(r.checkpoint));
  }

  lemma LinesUnbroken(a: string, b: string, c: string, d: string, e: string, f: string)
    requires '\n' !in a && '\n' !in b && '\n' !in c && '\n' !in d && '\n' !in e && '\n' !in f
    ensures Unbroken([a, b, c, d, e, f])
  {
  }

  // ---------------------------------------------------------------- what is read

  /** What std::stoull makes of white space, a sign, digits and whatever follows them. */
  lemma StoullMeans(spaces: string, sign: string, digits: string, rest: string)
    requires (forall i :: 0 <= i < |spaces| ==> IsSpace(spaces[i])) && sign in {"", "+", "-"}
    requires digits != "" && AllDigits(digits) && (rest == "" || !IsDigit(rest[0]))
    ensures Stoull(spaces + (sign + (digits + rest))) ==
            if Value(digits) >= U64 then None
            else Some(if sign == "-" && Value(digits) > 0 then U64 - Value(digits) else Value(digits))
  {
    var u := digits + rest;
    var t := sign + u;
    DigitsThenOther(digits, rest);
    assert sign == "" ==> t == u;
    assert sign != "" ==> t[0] == sign[0] && t[1..] == u;
    assert IsDigit(t[0]) || t[0] == '+' || t[0] == '-';
    assert !IsSpace(t[0]);
    SpacesAreSkipped(spaces, t);
  }

  lemma {:induction false} TakenLine(s: string)
    requires TakeLine(s).Some?
    ensures var (line, rest) := TakeLine(s).value;
            '\n' !in line && (s == line + "\n" + rest || (s == line && rest == ""))
  {
    if s[0] == '\n' {
      assert s == "" + "\n" + s[1..];
    } else if s[1..] != "" {
      TakenLine(s[1..]);
      assert s == [s[0]] + s[1..];
    }
  }

  /** Lines that were read are the text, but for a newline that may be missing at the very end. */
  lemma {:induction false} ReadLinesAreText(s: string, n: nat)
    requires n >= 1 && ReadLines(s, n).Some?
    ensures var (lines, rest) := ReadLines(s, n).value;
            |lines| == n && Unbroken(lines) && (s == Join(lines) + rest || (rest == "" && s + "\n" == Join(lines)))
    decreases n
  {
    TakenLine(s);
    var (line, after) := TakeLine(s).value;
    if n == 1 {
      assert ReadLines(after, 0) == Some(([], after));
      assert Join([line]) == line + "\n" + Join([]) == line + "\n";
    } else {
      ReadLinesAreText(after, n - 1);
      var (lines, rest) := ReadLines(after, n - 1).value;
      assert after != "" && s == line + "\n" + after;
      assert ([line] + lines)[1..] == lines;
      assert Join([line] + lines) == line + "\n" + Join(lines);
    }
  }

  /** The header of a record text, with the texts its numbers were read from. */
  function HeaderText(version: string, epoch: string, owner: string, length: string, checksum: string): string {
    "DAGESTATE1\n" + version + "\n" + epoch + "\n" + owner + "\n" + length + "\n" + checksum
  }

  lemma JoinedHeader(a: string, b: string, c: string, d: string, e: string)
    ensures Join(["DAGESTATE1", a, b, c, d, e]) == HeaderText(a, b, c, d, e) + "\n"
  {
    assert Join([e]) == e + "\n";
    assert [d, e][1..] == [e] && [c, d, e][1..] == [d, e] && [b, c, d, e][1..] == [c, d, e];
    assert [a, b, c, d, e][1..] == [b, c, d, e] && ["DAGESTATE1", a, b, c, d, e][1..] == [a, b, c, d, e];
    assert Join([d, e]) == d + "\n" + (e + "\n");
    assert Join([c, d, e]) == c + "\n" + (d + "\n" + (e + "\n"));
    assert Join([b, c, d, e]) == b + "\n" + (c + "\n" + (d + "\n" + (e + "\n")));
    assert Join([a, b, c, d, e]) == a + "\n" + (b + "\n" + (c + "\n" + (d + "\n" + (e + "\n"))));
  }

  /** The text writes record `r`: six header lines and the checkpoint; the last newline may be missing before an empty one. */
  ghost predicate Writes(bytes: string, r: Record<string>, digest: string -> string, version: string, epoch: string, length: string) {
    var header := HeaderText(version, epoch, r.owner, length, digest(r.checkpoint));
    && (bytes == header + "\n" + r.checkpoint || (bytes == header && r.checkpoint == ""))
    && '\n' !in version && '\n' !in epoch && '\n' !in length && '\n' !in r.owner
    && Stoull(version) == Some(r.version) && Stoull(epoch) == Some(r.epoch) && Stoull(length) == Some(|r.checkpoint|)
  }

  lemma WrittenLines(bytes: string, r: Record<string>, digest: string -> string, version: string, epoch: string, length: string)
    requires IsDigest(digest) && Writes(bytes, r, digest, version, epoch, length)
    ensures ReadLines(bytes, 6) == Some((["DAGESTATE1", version, epoch, r.owner, length, digest(r.checkpoint)], r.checkpoint))
  {
    var checksum := digest(r.checkpoint);
    var lines := ["DAGESTATE1", version, epoch, r.owner, length, checksum];
    JoinedHeader(version, epoch, r.owner, length, checksum);
    assert '\n' !in "DAGESTATE1" && '\n' !in checksum && checksum != "";
    LinesUnbroken("DAGESTATE1", version, epoch, r.owner, length, checksum);
    if bytes == Join(lines) + r.checkpoint {
      ReadJoined(lines, r.checkpoint);
    } else {
      var k := |Join(lines)| - 1;
      assert bytes == Join(lines)[..k];
      ReadCut(lines, k);
    }
  }

  lemma WrittenIsRead(bytes: string, r: Record<string>, digest: string -> string, version: string, epoch: string, length: string)
    requires IsDigest(digest) && Writes(bytes, r, digest, version, epoch, length)
    ensures Decode(bytes, digest) == Success(r)
  {
    WrittenLines(bytes, r, digest, version, epoch, length);
  }

  lemma ReadIsWritten(bytes: string, r: Record<string>, digest: string -> string)
    returns (version: string, epoch: string, length: string)
    requires Decode(bytes, digest) == Success(r)
    ensures Writes(bytes, r, digest, version, epoch, length)
  {
    ReadLinesAreText(bytes, 6);
    var (lines, rest) := ReadLines(bytes, 6).value;
    version, epoch, length := lines[1], lines[2], lines[4];
    assert lines == ["DAGESTATE1", version, epoch, r.owner, length, digest(r.checkpoint)];
    JoinedHeader(version, epoch, r.owner, length, digest(r.checkpoint));
    var header := HeaderText(version, epoch, r.owner, length, digest(r.checkpoint));
    if bytes != Join(lines) + rest {
      assert bytes == (bytes + "\n")[..|bytes|] && header == (header + "\n")[..|header|];
    }
  }

  /** What decode_record accepts, exactly: the texts that write a record, and it reads that record. */
  lemma DecodesExactly(bytes: string, r: Record<string>, digest: string -> string)
    requires IsDigest(digest)
    ensures Decode(bytes, digest) == Success(r) <==>
            exists version, epoch, length :: Writes(bytes, r, digest, version, epoch, length)
  {
    if Decode(bytes, digest) == Success(r) {
      var version, epoch, length := ReadIsWritten(bytes, r, digest);
    } else if version, epoch, length :| Writes(bytes, r, digest, version, epoch, length) {
      WrittenIsRead(bytes, r, digest, version, epoch, length);
    }
  }

  /** What encode_record writes. */
  lemma EncodedText(r: Record<string>, digest: string -> string)
    ensures Encode(r, digest) ==
            HeaderText(Digits(r.version), Digits(r.epoch), r.owner, Digits(|r.checkpoint|), digest(r.checkpoint)) + "\n" + r.checkpoint
  {
    JoinedHeader(Digits(r.version), Digits(r.epoch), r.owner, Digits(|r.checkpoint|), digest(r.checkpoint));
  }

  /** The checks after the header refuse another length, and a header whose digest line was cut short. */
  lemma AssembleRefuses(r: Record<string>, digest: string -> string, lines: seq<string>, rest: string)
    requires IsDigest(digest) && Storable(r) && '\n' !in r.owner
    requires (|rest| < |r.checkpoint| && lines == Header(r, digest)) || (CutShort(lines, Header(r, digest)) && rest == "")
    ensures if lines == Header(r, digest) && rest == r.checkpoint
            then Assemble(lines, rest, digest) == Success(r) else Assemble(lines, rest, digest).Failure?
  {
    HeaderUnbroken(r, digest);
    var whole := Header(r, digest);
    if lines != whole {
      CutLine(lines, whole);
    }
  }

  /** Lines cut short differ from the whole in the last line only. */
  lemma CutLine(lines: seq<string>, whole: seq<string>)
    requires |whole| == 6 && CutShort(lines, whole) && lines != whole
    ensures forall i :: 0 <= i < 5 ==> lines[i] == whole[i]
    ensures lines[5] != whole[5]
  {
    assert forall i :: 0 <= i < 5 ==> lines[i] == lines[..5][i] && whole[i] == whole[..5][i];
    assert lines == lines[..5] + [lines[5]] && whole == whole[..5] + [whole[5]];
  }

  /**
   A torn write is detected: a proper prefix of an encoding is rejected, except that
   an empty checkpoint's encoding may miss its last newline, and then decodes to the
   same record.
   */
  lemma PrefixesAreRejected(r: Record<string>, digest: string -> string, k: nat)
    requires IsDigest(digest) && Storable(r) && '\n' !in r.owner
    requires k < |Encode(r, digest)|
    ensures var decoded := Decode(Encode(r, digest)[..k], digest);
            if r.checkpoint == "" && k == |Encode(r, digest)| - 1 then decoded == Success(r) else decoded.Failure?
  {
    var lines := Header(r, digest);
    HeaderUnbroken(r, digest);
    PrefixOfLines(r, digest, lines, k);
  }

  lemma PrefixOfLines(r: Record<string>, digest: string -> string, lines: seq<string>, k: nat)
    requires IsDigest(digest) && Storable(r) && '\n' !in r.owner
    requires lines == Header(r, digest) && Unbroken(lines) && |lines| == 6 && lines[5] != ""
    requires k < |Join(lines) + r.checkpoint|
    ensures var decoded := Decode((Join(lines) + r.checkpoint)[..k], digest);
            if r.checkpoint == "" && k == |Join(lines)| - 1 then decoded == Success(r) else decoded.Failure?
  {
    var whole := Join(lines);
    var cut := (whole + r.checkpoint)[..k];
    if k >= |whole| {
      var rest := r.checkpoint[..k - |whole|];
      assert cut == whole + rest;
      ReadJoined(lines, rest);
      AssembleRefuses(r, digest, lines, rest);
    } else {
      assert cut == whole[..k];
      ReadCut(lines, k);
      var got := ReadLines(cut, |FIELDS|);
      if got.Some? {
        AssembleRefuses(r, digest, got.value.0, "");
      }
    }
  }

  // ---------------------------------------------------------------- file store

  predicate ValidRunId(id: string) {
    id != "" && forall i :: 0 <= i < |id| ==>
      'a' <= id[i] <= 'z' || 'A' <= id[i] <= 'Z' || '0' <= id[i] <= '9' || id[i] == '-' || id[i] == '_'
  }

  /** A run id that names a file, by character code: not empty, only digits, letters, minus and underscore; no path, no line end. */
  lemma RunIdMeans(id: string)
    ensures ValidRunId(id) <==>
            id != "" && forall i :: 0 <= i < |id| ==>
              var c := id[i] as int; 48 <= c <= 57 || 65 <= c <= 90 || 97 <= c <= 122 || c == 45 || c == 95
    ensures ValidRunId(id) ==> '\n' !in id && '/' !in id && '\\' !in id && '.' !in id
  {
    assert ValidRunId(id) ==> forall i :: 0 <= i < |id| ==> id[i] !in {'\n', '/', '\\', '.'};
  }

  /** What one file operation leaves in the file and what it answers. */
  datatype FileStep<T> = FileStep(file: Option<string>, answer: Result<T, StoreError>)

  /** The record a file holds; a missing file counts as an empty record of version 0. */
  function Stored(file: Option<string>, digest: string -> string): Result<Record<string>, CodecError> {
    match file case None => Success(Record(0, 0, "", "")) case Some(bytes) => Decode(bytes, digest)
  }

  /** A 64-bit counter wraps. */
  function Increment(n: nat): nat {
    if n + 1 == U64 then 0 else n + 1
  }

  function Exchanged(r: Record<string>, checkpoint: string): Record<string> {
    r.(version := Increment(r.version), checkpoint := checkpoint)
  }

  function Claimed(r: Record<string>, owner: string): Record<string> {
    r.(version := Increment(r.version), epoch := Increment(r.epoch), owner := owner)
  }

  function FileExchange(file: Option<string>, expected: nat, checkpoint: string, digest: string -> string): FileStep<nat> {
    var stored := Stored(file, digest);
    if stored.Failure? then FileStep(file, Failure(StateIoError))
    else if stored.value.version != expected then FileStep(file, Failure(StateConflict))
    else
      var next := Exchanged(stored.value, checkpoint);
      FileStep(Some(Encode(next, digest)), Success(next.version))
  }

  function FileClaim(file: Option<string>, expected: nat, owner: string, digest: string -> string): FileStep<Record<string>> {
    var stored := Stored(file, digest);
    if !ValidRunId(owner) then FileStep(file, Failure(InvalidOwner))
    else if file.None? || stored.Failure? then FileStep(file, Failure(StateIoError))
    else if stored.value.version != expected then FileStep(file, Failure(StateConflict))
    else
      var next := Claimed(stored.value, owner);
      FileStep(Some(Encode(next, digest)), Success(next))
  }

  ghost function FileOf(files: map<string, string>, id: string): Option<string> {
    if id in files then Some(files[id]) else None
  }

  /** The store's directory as a map from run id to file contents; each method is one locked section. */
  class FileStateStore {
    const digest: string -> string
    var files: map<string, string>

    constructor (digest: string -> string)
      ensures files == map[] && this.digest == digest
    {
      this.digest := digest;
      files := map[];
    }

    method Load(id: string) returns (answer: Result<Record<string>, StoreError>)
      ensures answer ==
              if !ValidRunId(id) then Failure(InvalidRunId)
              else if id !in files then Failure(StateNotFound)
              else match Decode(files[id], digest) case Success(r) => Success(r) case Failure(_) => Failure(StateCorrupt)
    {
      if !ValidRunId(id) {
        return Failure(InvalidRunId);
      }
      if id !in files {
        return Failure(StateNotFound);
      }
      var decoded := DecodeRecord(files[id], digest);
      answer := match decoded case Success(r) => Success(r) case Failure(_) => Failure(StateCorrupt);
    }

    method CompareAndSet(id: string, expected: nat, checkpoint: string) returns (answer: Result<nat, StoreError>)
      modifies this
      ensures if ValidRunId(id)
              then FileStep(FileOf(files, id), answer) == FileExchange(old(FileOf(files, id)), expected, checkpoint, digest)
              else answer == Failure(InvalidRunId) && files == old(files)
      ensures files - {id} == old(files) - {id}
    {
      if !ValidRunId(id) {
        return Failure(InvalidRunId);
      }
      var current := Record(0, 0, "", "");
      if id in files {
        var decoded := DecodeRecord(files[id], digest);
        if decoded.Failure? {
          return Failure(StateIoError);
        }
        current := decoded.value;
      }
      if current.version != expected {
        return Failure(StateConflict);
      }
      var next := Record(Increment(current.version), current.epoch, current.owner, checkpoint);
      files := files[id := Encode(next, digest)];
      answer := Success(next.version);
    }

    method Recover(id: string, expected: nat, owner: string) returns (answer: Result<Record<string>, StoreError>)
      modifies this
      ensures if ValidRunId(id)
              then FileStep(FileOf(files, id), answer) == FileClaim(old(FileOf(files, id)), expected, owner, digest)
              else answer == Failure(InvalidOwner) && files == old(files)
      ensures files - {id} == old(files) - {id}
    {
      if !ValidRunId(id) || !ValidRunId(owner) {
        return Failure(InvalidOwner);
      }
      if id !in files {
        return Failure(StateIoError);
      }
      var decoded := DecodeRecord(files[id], digest);
      if decoded.Failure? {
        return Failure(StateIoError);
      }
      var record := decoded.value;
      if record.version != expected {
        return Failure(StateConflict);
      }
      record := record.(version := Increment(record.version), epoch := Increment(record.epoch), owner := owner);
      files := files[id := Encode(record, digest)];
      answer := Success(record);
    }
  }

  /** The file holds exactly the record of the slot. */
  ghost predicate Represents(file: Option<string>, slot: Option<Record<string>>, digest: string -> string) {
    match slot
    case None => file.None?
    case Some(r) => file == Some(Encode(r, digest)) && Storable(r) && '\n' !in r.owner
  }

  lemma StoredIsSlot(file: Option<string>, slot: Option<Record<string>>, digest: string -> string)
    requires IsDigest(digest) && Represents(file, slot, digest)
    ensures Stored(file, digest) == Success(if slot.Some? then slot.value else Record(0, 0, "", ""))
  {
    if slot.Some? {
      RoundTrip(slot.value, digest);
    }
  }

  /**
   The file store refines the record protocol: a compare-exchange on a file that
   represents a slot gives the same answer, leaves a file that represents the
   exchanged slot, and leaves a refused file untouched.
   */
  lemma FileExchangeRefines(
    file: Option<string>, slot: Option<Record<string>>, expected: nat, checkpoint: string, digest: string -> string)
    requires IsDigest(digest) && Represents(file, slot, digest)
    requires VersionOf(slot) + 1 < U64 && |checkpoint| < U64
    ensures var f := FileExchange(file, expected, checkpoint, digest);
            var m := CompareExchange(slot, expected, checkpoint, "");
            && f.answer == m.answer
            && (m.answer.Success? ==> Represents(f.file, m.record, digest))
            && (m.answer.Failure? ==> f.file == file)
  {
    StoredIsSlot(file, slot, digest);
  }

  /** The same for claims; a missing record and a bad owner are refused too, each with the file store's own error. */
  lemma FileClaimRefines(
    file: Option<string>, slot: Option<Record<string>>, expected: nat, owner: string, digest: string -> string)
    requires IsDigest(digest) && Represents(file, slot, digest)
    requires slot.Some? ==> slot.value.version + 1 < U64 && slot.value.epoch + 1 < U64
    ensures var f := FileClaim(file, expected, owner, digest);
            var m := Claim(slot, expected, owner);
            && (f.answer.Success? <==> ValidRunId(owner) && m.answer.Success?)
            && (f.answer.Success? ==> f.answer == m.answer && Represents(f.file, m.record, digest))
            && (f.answer.Failure? ==> f.file == file)
            && (ValidRunId(owner) && slot.Some? ==> f.answer == m.answer)
  {
    StoredIsSlot(file, slot, digest);
    assert ValidRunId(owner) ==> '\n' !in owner;
  }
}

/**
 The request language of protocol.cpp: parse_request reads a std::istringstream step by step and is
 proved equal to a function of the raw text. The leader prints REPLICATE requests in the same language;
 reading back what it prints is what replication rests on.
 */
module Protocol {
  import opened Types
  import opened Text

  datatype RequestType =
    | PRODUCE | FETCH | JOIN | LEAVE | GROUP_POLL | COMMIT
    | REPLICATE | REPLICATION_PROGRESS | PING | METRICS | INVALID

  datatype Request = Request(kind: RequestType, groupId: string, consumerId: string, topic: string,
                             partition: int, offset: nat, payload: string)

  const BLANK := Request(INVALID, "", "", "", 0, 0, "")

  const LONG_LONG_MAX: int := 0x7FFF_FFFF_FFFF_FFFF

  // ----- Numbers in a request -----

  function ParsePartition(s: string): (r: Option<int>)
    ensures r.Some? ==> 0 <= r.value < 3
  {
    match WholeInteger(s)
    case Some(v) => if 0 <= v < 3 then Some(v) else None
    case None => None
  }

  function ParseNonNegativeInt(s: string): (r: Option<int>)
    ensures r.Some? ==> 0 <= r.value <= INT_MAX
  {
    match WholeInteger(s)
    case Some(v) => if 0 <= v <= INT_MAX then Some(v) else None
    case None => None
  }

  function ParseOffset(s: string): (r: Option<nat>)
    ensures r.Some? ==> r.value <= LONG_LONG_MAX
  {
    match WholeInteger(s)
    case Some(v) => if 0 <= v <= LONG_LONG_MAX then Some(v) else None
    case None => None
  }

  // ----- What a request means -----

  datatype Fields = Fields(tokens: seq<string>, rest: string)

  // The next count tokens, or None if the text runs out first.
  function Take(s: string, count: nat): (r: Option<Fields>)
    ensures r.Some? ==> |r.value.tokens| == count && forall i | 0 <= i < count :: IsToken(r.value.tokens[i])
    decreases count
  {
    if count == 0 then Some(Fields([], s))
    else if Token(s) == "" then None
    else match Take(AfterToken(s), count - 1)
      case None => None
      case Some(f) => Some(Fields([Token(s)] + f.tokens, f.rest))
  }

  // The next count tokens with nothing but whitespace after them.
  function TakeAll(s: string, count: nat): (r: Option<seq<string>>)
    ensures r.Some? ==> |r.value| == count && forall i | 0 <= i < count :: IsToken(r.value[i])
  {
    match Take(s, count)
    case Some(f) => if Token(f.rest) == "" then Some(f.tokens) else None
    case None => None
  }

  predicate AllSpaces(s: string) {
    forall i | 0 <= i < |s| :: s[i] == ' '
  }

  function DropSpaces(s: string): (r: string)
    ensures r != "" ==> r[0] != ' '
    ensures r == "" <==> AllSpaces(s)
    ensures forall c | c in r :: c in s
  {
    if s != "" && s[0] == ' ' then
      assert s == [s[0]] + s[1..];
      DropSpaces(s[1..])
    else s
  }

  // The rest of the line without its leading spaces, unless it is nothing but spaces.
  function PayloadOf(s: string): string {
    if AllSpaces(Line(s)) then Line(s) else DropSpaces(Line(s))
  }

  function Parse(raw: string): Request {
    var command, s := Token(raw), AfterToken(raw);
    if command == "PING" then
      if Token(s) == "" then BLANK.(kind := PING) else BLANK
    else if command == "METRICS" then
      if Token(s) == "" then BLANK.(kind := METRICS) else BLANK
    else if command == "PRODUCE" then ParseProduce(s)
    else if command == "FETCH" then ParseFetch(s)
    else if command == "REPLICATE" then ParseReplicate(s)
    else if command == "REPLICATION_PROGRESS" then ParseProgress(s)
    else if command == "JOIN" then
      match TakeAll(s, 3)
      case Some(t) => BLANK.(kind := JOIN, groupId := t[0], consumerId := t[1], topic := t[2])
      case None => BLANK
    else if command == "LEAVE" then
      match TakeAll(s, 2)
      case Some(t) => BLANK.(kind := LEAVE, groupId := t[0], consumerId := t[1])
      case None => BLANK
    else if command == "GROUP_POLL" then
      match TakeAll(s, 2)
      case Some(t) => BLANK.(kind := GROUP_POLL, groupId := t[0], consumerId := t[1])
      case None => BLANK
    else if command == "COMMIT" then ParseCommit(s)
    else BLANK
  }

  function ParseProduce(s: string): Request {
    match Take(s, 2)
    case None => BLANK
    case Some(f) =>
      var payload := PayloadOf(f.rest);
      if payload == "" || ParsePartition(f.tokens[1]).None? then BLANK
      else BLANK.(kind := PRODUCE, topic := f.tokens[0], partition := ParsePartition(f.tokens[1]).value, payload := payload)
  }

  // A partition that was read stays in a request that a bad offset makes invalid.
  function ParseFetch(s: string): Request {
    match TakeAll(s, 3)
    case None => BLANK
    case Some(t) =>
      if ParsePartition(t[1]).None? then BLANK else
      var req := BLANK.(partition := ParsePartition(t[1]).value);
      if ParseOffset(t[2]).None? then req
      else req.(kind := FETCH, topic := t[0], offset := ParseOffset(t[2]).value)
  }

  function ParseReplicate(s: string): Request {
    match Take(s, 3)
    case None => BLANK
    case Some(f) =>
      var payload := PayloadOf(f.rest);
      if payload == "" || ParseNonNegativeInt(f.tokens[1]).None? then BLANK else
      var req := BLANK.(partition := ParseNonNegativeInt(f.tokens[1]).value);
      if ParseOffset(f.tokens[2]).None? then req
      else req.(kind := REPLICATE, topic := f.tokens[0], offset := ParseOffset(f.tokens[2]).value, payload := payload)
  }

  function ParseProgress(s: string): Request {
    match TakeAll(s, 2)
    case None => BLANK
    case Some(t) =>
      if ParseNonNegativeInt(t[1]).None? then BLANK
      else BLANK.(kind := REPLICATION_PROGRESS, topic := t[0], partition := ParseNonNegativeInt(t[1]).value)
  }

  function ParseCommit(s: string): Request {
    match TakeAll(s, 5)
    case None => BLANK
    case Some(t) =>
      if ParsePartition(t[3]).None? then BLANK else
      var req := BLANK.(partition := ParsePartition(t[3]).value);
      if ParseOffset(t[4]).None? then req
      else req.(kind := COMMIT, groupId := t[0], consumerId := t[1], topic := t[2], offset := ParseOffset(t[4]).value)
  }

  // ----- How the code reads it -----

  // iss >> a >> b >> ...: stops at the first token that is not there.
  method ExtractAll(iss: InputStream, count: nat) returns (ok: bool, tokens: seq<string>)
    requires iss.Valid() && !iss.failed
    modifies iss
    ensures iss.Valid() && iss.failed == !ok
    ensures ok == Take(old(iss.rest), count).Some?
    ensures ok ==> Take(old(iss.rest), count) == Some(Fields(tokens, iss.rest))
  {
    hide Token, AfterToken;
    if count == 0 {
      ok, tokens := true, [];
      return;
    }
    var token := iss.Extract("");
    if iss.failed {
      ok, tokens := false, [];
      return;
    }
    ok, tokens := ExtractAll(iss, count - 1);
    tokens := [token] + tokens;
  }

  method HasExtraTokens(iss: InputStream) returns (extra: bool)
    requires iss.Valid() && !iss.failed
    modifies iss
    ensures extra == (Token(old(iss.rest)) != "")
  {
    var _ := iss.Extract("");
    extra := !iss.failed;
  }

  method ReadPayload(iss: InputStream) returns (payload: string)
    requires iss.Valid() && !iss.failed
    modifies iss
    ensures payload == PayloadOf(old(iss.rest))
  {
    hide Line, AfterLine;
    payload := iss.GetLine();
    ghost var line := payload;
    var firstNonSpace := 0;
    while firstNonSpace < |payload| && payload[firstNonSpace] == ' '
      invariant firstNonSpace <= |payload| && AllSpaces(payload[..firstNonSpace])
      invariant DropSpaces(payload[firstNonSpace..]) == DropSpaces(payload)
    {
      assert payload[firstNonSpace..][1..] == payload[firstNonSpace + 1..];
      firstNonSpace := firstNonSpace + 1;
    }
    if firstNonSpace < |payload| {
      payload := payload[firstNonSpace..];
    } else {
      assert payload[..firstNonSpace] == payload;
    }
  }

  method ParseRequest(raw: string) returns (req: Request)
    ensures req == Parse(raw)
  {
    hide Take, Token, AfterToken, PayloadOf, WholeInteger;
    req := BLANK;
    var iss := new InputStream(raw);
    var command := iss.Extract("");
    if iss.failed {
      return;
    }
    var ok, t, extra;
    if command == "PING" {
      extra := HasExtraTokens(iss);
      if !extra {
        req := req.(kind := PING);
      }
    } else if command == "METRICS" {
      extra := HasExtraTokens(iss);
      if !extra {
        req := req.(kind := METRICS);
      }
    } else if command == "PRODUCE" {
      req := ReadProduce(iss);
    } else if command == "FETCH" {
      req := ReadFetch(iss);
    } else if command == "REPLICATE" {
      req := ReadReplicate(iss);
    } else if command == "REPLICATION_PROGRESS" {
      ok, t := ExtractExactly(iss, 2);
      if ok && ParseNonNegativeInt(t[1]).Some? {
        req := req.(kind := REPLICATION_PROGRESS, topic := t[0], partition := ParseNonNegativeInt(t[1]).value);
      }
    } else if command == "JOIN" {
      ok, t := ExtractExactly(iss, 3);
      if ok {
        req := req.(kind := JOIN, groupId := t[0], consumerId := t[1], topic := t[2]);
      }
    } else if command == "LEAVE" {
      ok, t := ExtractExactly(iss, 2);
      if ok {
        req := req.(kind := LEAVE, groupId := t[0], consumerId := t[1]);
      }
    } else if command == "GROUP_POLL" {
      ok, t := ExtractExactly(iss, 2);
      if ok {
        req := req.(kind := GROUP_POLL, groupId := t[0], consumerId := t[1]);
      }
    } else if command == "COMMIT" {
      req := ReadCommit(iss);
    }
  }

  // !(iss >> ...) || has_extra_tokens(iss)
  method ExtractExactly(iss: InputStream, count: nat) returns (ok: bool, tokens: seq<string>)
    requires iss.Valid() && !iss.failed
    modifies iss
    ensures ok == TakeAll(old(iss.rest), count).Some?
    ensures ok ==> TakeAll(old(iss.rest), count) == Some(tokens)
  {
    hide Take, Token;
    ok, tokens := ExtractAll(iss, count);
    if ok {
      var extra := HasExtraTokens(iss);
      ok := !extra;
    }
  }

  method ReadProduce(iss: InputStream) returns (req: Request)
    requires iss.Valid() && !iss.failed
    modifies iss
    ensures req == ParseProduce(old(iss.rest))
  {
    hide Take, WholeInteger;
    req := BLANK;
    var ok, t := ExtractAll(iss, 2);
    if !ok {
      return;
    }
    var payload := ReadPayload(iss);
    if t[0] == "" || payload == "" || ParsePartition(t[1]).None? {
      return;
    }
    req := req.(partition := ParsePartition(t[1]).value);
    req := req.(kind := PRODUCE, topic := t[0], payload := payload);
  }

  method ReadFetch(iss: InputStream) returns (req: Request)
    requires iss.Valid() && !iss.failed
    modifies iss
    ensures req == ParseFetch(old(iss.rest))
  {
    hide Take, WholeInteger;
    req := BLANK;
    var ok, t := ExtractExactly(iss, 3);
    if !ok || ParsePartition(t[1]).None? {
      return;
    }
    req := req.(partition := ParsePartition(t[1]).value);
    if ParseOffset(t[2]).None? {
      return;
    }
    req := req.(offset := ParseOffset(t[2]).value);
    req := req.(kind := FETCH, topic := t[0]);
  }

  method ReadReplicate(iss: InputStream) returns (req: Request)
    requires iss.Valid() && !iss.failed
    modifies iss
    ensures req == ParseReplicate(old(iss.rest))
  {
    hide Take, WholeInteger;
    req := BLANK;
    var ok, t := ExtractAll(iss, 3);
    if !ok {
      return;
    }
    var payload := ReadPayload(iss);
    if t[0] == "" || payload == "" || ParseNonNegativeInt(t[1]).None? {
      return;
    }
    req := req.(partition := ParseNonNegativeInt(t[1]).value);
    if ParseOffset(t[2]).None? {
      return;
    }
    req := req.(offset := ParseOffset(t[2]).value);
    req := req.(kind := REPLICATE, topic := t[0], payload := payload);
  }

  method ReadCommit(iss: InputStream) returns (req: Request)
    requires iss.Valid() && !iss.failed
    modifies iss
    ensures req == ParseCommit(old(iss.rest))
  {
    hide Take, WholeInteger;
    req := BLANK;
    var ok, t := ExtractExactly(iss, 5);
    if !ok || ParsePartition(t[3]).None? {
      return;
    }
    req := req.(partition := ParsePartition(t[3]).value);
    if ParseOffset(t[4]).None? {
      return;
    }
    req := req.(offset := ParseOffset(t[4]).value);
    req := req.(kind := COMMIT, groupId := t[0], consumerId := t[1], topic := t[2]);
  }

  // ----- Requests by their words -----

  function Words(s: string): (words: seq<string>)
    decreases |s|
  {
    if Token(s) == "" then [] else [Token(s)] + Words(AfterToken(s))
  }

  function AfterWords(s: string, count: nat): string
    decreases count
  {
    if count == 0 then s else AfterWords(AfterToken(s), count - 1)
  }

  lemma {:induction false} TakeWords(s: string, count: nat)
    ensures Take(s, count) == if |Words(s)| >= count then Some(Fields(Words(s)[..count], AfterWords(s, count))) else None
    ensures |Words(s)| >= count ==> Words(AfterWords(s, count)) == Words(s)[count..]
    decreases count
  {
    hide Token, AfterToken;
    if count > 0 && Token(s) != "" {
      TakeWords(AfterToken(s), count - 1);
      var words := Words(s);
      assert words[1..] == Words(AfterToken(s));
      if |words| >= count {
        assert words[..count] == [words[0]] + words[1..][..count - 1];
        assert words[count..] == words[1..][count - 1..];
      }
    }
  }

  lemma TakeAllWords(s: string, count: nat)
    ensures TakeAll(s, count) == if |Words(s)| == count then Some(Words(s)) else None
  {
    hide Token, AfterToken, Take;
    TakeWords(s, count);
    if |Words(s)| == count {
      assert Words(s)[..count] == Words(s);
    }
    if |Words(s)| >= count {
      assert Token(AfterWords(s, count)) == "" <==> Words(AfterWords(s, count)) == [];
    }
  }

  predicate IsCommand(words: seq<string>, command: string, count: nat) {
    |words| == count && count > 0 && words[0] == command
  }

  /** A request of words alone is what its words say, word for word: nothing less and nothing more is accepted. */
  lemma WordsDecide(raw: string)
    ensures var w, p := Words(raw), Parse(raw);
      && (p.kind == JOIN <==> IsCommand(w, "JOIN", 4))
      && (p.kind == LEAVE <==> IsCommand(w, "LEAVE", 3))
      && (p.kind == GROUP_POLL <==> IsCommand(w, "GROUP_POLL", 3))
      && (p.kind == JOIN ==> p.groupId == w[1] && p.consumerId == w[2] && p.topic == w[3])
      && (p.kind in {LEAVE, GROUP_POLL} ==> p.groupId == w[1] && p.consumerId == w[2])
  {
    hide Token, AfterToken, TakeAll, Words;
    FirstWord(raw);
    TakeAllWords(AfterToken(raw), 3);
    TakeAllWords(AfterToken(raw), 2);
    JoinMeans(raw);
    PairMeans(raw);
    hide Parse;
  }

  lemma JoinMeans(raw: string)
    ensures var p, t := Parse(raw), TakeAll(AfterToken(raw), 3);
      && (p.kind == JOIN <==> Token(raw) == "JOIN" && t.Some?)
      && (p.kind == JOIN ==> [p.groupId, p.consumerId, p.topic] == t.value)
  {
    hide Token, AfterToken, TakeAll, ParseProduce, ParseFetch, ParseReplicate, ParseProgress, ParseCommit;
    KindsOf(AfterToken(raw));
  }

  lemma PairMeans(raw: string)
    ensures var p, t := Parse(raw), TakeAll(AfterToken(raw), 2);
      && (p.kind == LEAVE <==> Token(raw) == "LEAVE" && t.Some?)
      && (p.kind == GROUP_POLL <==> Token(raw) == "GROUP_POLL" && t.Some?)
      && (p.kind in {LEAVE, GROUP_POLL} ==> [p.groupId, p.consumerId] == t.value)
  {
    hide Token, AfterToken, TakeAll, ParseProduce, ParseFetch, ParseReplicate, ParseProgress, ParseCommit;
    KindsOf(AfterToken(raw));
  }

  lemma OneWordDecides(raw: string)
    ensures Parse(raw).kind == PING <==> Words(raw) == ["PING"]
    ensures Parse(raw).kind == METRICS <==> Words(raw) == ["METRICS"]
  {
    hide Token, AfterToken, TakeAll, Take, Words, ParseProduce, ParseFetch, ParseReplicate, ParseProgress, ParseCommit;
    FirstWord(raw);
    KindsOf(AfterToken(raw));
    NoWords(AfterToken(raw));
    assert Words(AfterToken(raw)) == [] && Token(raw) != "" ==> Words(raw) == [Token(raw)];
    assert |Words(raw)| == 1 ==> Words(AfterToken(raw)) == [] && Words(raw)[0] == Token(raw);
  }

  /** Any of the six blanks separates words; nothing else does. */
  lemma BlanksSeparate(c: char)
    ensures var blanks := [' ', '\t', '\n', '\r', '\U{0B}', '\U{0C}'];
      Words("a" + [c] + "b") == if c in blanks then ["a", "b"] else ["a" + [c] + "b"]
  {
    if IsSpace(c) {
      assert "a" + [c] + "b" == "a" + ([c] + "b");
      ReadsToken("a", [c] + "b");
      assert SkipSpace([c] + "b") == "b" by {
        assert ([c] + "b")[1..] == "b";
      }
      TokenLengthOf("b", "");
      assert "b" + "" == "b";
      assert Token([c] + "b") == "b" && AfterToken([c] + "b") == "";
      NoToken();
      assert Words([c] + "b") == ["b"];
    } else {
      var word := "a" + [c] + "b";
      ReadsToken(word, "");
      assert word + "" == word;
      NoToken();
    }
  }

  lemma NoWords(s: string)
    ensures Token(s) == "" <==> Words(s) == []
  {
    hide Token, AfterToken;
  }

  lemma FirstWord(raw: string)
    ensures Token(raw) == "" ==> Words(raw) == []
    ensures Token(raw) != "" ==> Words(raw) == [Token(raw)] + Words(AfterToken(raw)) && Words(raw)[1..] == Words(AfterToken(raw))
  {
    hide Token, AfterToken;
  }

  lemma KindsOf(s: string)
    ensures ParseProduce(s).kind in {PRODUCE, INVALID} && ParseFetch(s).kind in {FETCH, INVALID} && ParseReplicate(s).kind in {REPLICATE, INVALID}
    ensures ParseProgress(s).kind in {REPLICATION_PROGRESS, INVALID} && ParseCommit(s).kind in {COMMIT, INVALID}
  {
    hide TakeAll, Take, ParsePartition, ParseOffset, ParseNonNegativeInt, PayloadOf;
  }

  /** So are requests with numbers, which must be numbers to their last character, and in range. */
  lemma NumbersDecide(raw: string)
    ensures var w, p := Words(raw), Parse(raw);
      && (p.kind == FETCH <==> IsCommand(w, "FETCH", 4) && ParsePartition(w[2]).Some? && ParseOffset(w[3]).Some?)
      && (p.kind == COMMIT <==> IsCommand(w, "COMMIT", 6) && ParsePartition(w[4]).Some? && ParseOffset(w[5]).Some?)
      && (p.kind == REPLICATION_PROGRESS <==> IsCommand(w, "REPLICATION_PROGRESS", 3) && ParseNonNegativeInt(w[2]).Some?)
      && (p.kind == FETCH ==> p.topic == w[1] && Some(p.partition) == ParsePartition(w[2]) && Some(p.offset) == ParseOffset(w[3]))
      && (p.kind == COMMIT ==> p.groupId == w[1] && p.consumerId == w[2] && p.topic == w[3])
      && (p.kind == COMMIT ==> Some(p.partition) == ParsePartition(w[4]) && Some(p.offset) == ParseOffset(w[5]))
      && (p.kind == REPLICATION_PROGRESS ==> p.topic == w[1] && Some(p.partition) == ParseNonNegativeInt(w[2]))
  {
    hide Token, AfterToken, TakeAll, Take, Words, AfterWords, ParseProduce, ParseReplicate, ParsePartition, ParseOffset, ParseNonNegativeInt;
    FirstWord(raw);
    KindsOf(AfterToken(raw));
    TakeAllWords(AfterToken(raw), 3);
    TakeAllWords(AfterToken(raw), 2);
    TakeAllWords(AfterToken(raw), 5);
  }

  /** PRODUCE and REPLICATE take their words from the front and a payload from the rest of the line, which must not be empty. */
  lemma PayloadsDecide(raw: string)
    ensures var w, p := Words(raw), Parse(raw);
      && (p.kind == PRODUCE <==> |w| >= 3 && w[0] == "PRODUCE" && ParsePartition(w[2]).Some? && PayloadOf(AfterWords(raw, 3)) != "")
      && (p.kind == REPLICATE <==>
            |w| >= 4 && w[0] == "REPLICATE" && ParseNonNegativeInt(w[2]).Some? && ParseOffset(w[3]).Some? && PayloadOf(AfterWords(raw, 4)) != "")
      && (p.kind == PRODUCE ==> p.topic == w[1] && Some(p.partition) == ParsePartition(w[2]) && p.payload == PayloadOf(AfterWords(raw, 3)))
      && (p.kind == REPLICATE ==> p.topic == w[1] && Some(p.partition) == ParseNonNegativeInt(w[2]))
      && (p.kind == REPLICATE ==> Some(p.offset) == ParseOffset(w[3]) && p.payload == PayloadOf(AfterWords(raw, 4)))
  {
    hide Token, AfterToken, TakeAll, Take, Words, AfterWords, ParseFetch, ParseProgress, ParseCommit, ParsePartition, ParseOffset, ParseNonNegativeInt, PayloadOf;
    FirstWord(raw);
    KindsOf(AfterToken(raw));
    TakeWords(AfterToken(raw), 2);
    TakeWords(AfterToken(raw), 3);
    NextAfter(raw, 2);
    NextAfter(raw, 3);
  }

  lemma NextAfter(raw: string, count: nat)
    ensures AfterWords(raw, count + 1) == AfterWords(AfterToken(raw), count)
  {
    hide AfterToken;
  }

  function Spaces(n: nat): (s: string)
    ensures |s| == n && AllSpaces(s)
  {
    seq(n, _ => ' ')
  }

  /** The payload is the rest of the line behind its leading spaces, however many; nothing but spaces is kept as it is. */
  lemma PayloadIsRestOfLine(n: nat, body: string, behind: string)
    requires '\n' !in body && (body == "" || body[0] != ' ') && (behind == "" || behind[0] == '\n')
    ensures PayloadOf(Spaces(n) + body + behind) == if body == "" then Spaces(n) else body
  {
    var line := Spaces(n) + body;
    ReadsLine(line, behind);
    if body == "" {
      assert line == Spaces(n);
    } else {
      assert line[n] == body[0];
      DropsSpaces(n, body);
    }
  }

  lemma {:induction false} DropsSpaces(n: nat, body: string)
    requires body == "" || body[0] != ' '
    ensures DropSpaces(Spaces(n) + body) == body
  {
    if n == 0 {
      assert Spaces(0) + body == body;
    } else {
      assert (Spaces(n) + body)[1..] == Spaces(n - 1) + body;
      DropsSpaces(n - 1, body);
    }
  }

  /** Which numbers are numbers: an optional sign and digits, and nothing else; the sign counts. */
  lemma SignedNumbers(n: nat)
    ensures WholeInteger(Decimal(n)) == Some(n) && WholeInteger("+" + Decimal(n)) == Some(n) && WholeInteger("-" + Decimal(n)) == Some(0 - n)
    ensures WholeInteger("") == WholeInteger("-") == WholeInteger("+") == None
    ensures ParsePartition(Decimal(n)) == (if n < 3 then Some(n) else None)
    ensures ParseNonNegativeInt(Decimal(n)) == (if n <= 2147483647 then Some(n) else None)
    ensures ParseOffset(Decimal(n)) == (if n <= 9223372036854775807 then Some(n) else None)
    ensures n > 0 ==> ParsePartition("-" + Decimal(n)) == None && ParseOffset("-" + Decimal(n)) == None && ParseNonNegativeInt("-" + Decimal(n)) == None
  {
    ReadsDecimal(n);
    DecimalValue(n);
    hide Decimal, DigitsValue;
    assert ("+" + Decimal(n))[1..] == Decimal(n) && ("-" + Decimal(n))[1..] == Decimal(n);
  }

  lemma TrailingCharactersRefused(n: nat, c: char)
    requires !IsDigit(c)
    ensures WholeInteger(Decimal(n) + [c]) == None
  {
    hide Decimal;
    var s := Decimal(n) + [c];
    assert s[|s| - 1] == c && IsDigit(s[0]);
  }

  // ----- What a parsed PRODUCE guarantees -----

  // A payload that the parser can produce.
  predicate IsPayload(s: string) {
    s != "" && '\n' !in s && (s[0] != ' ' || AllSpaces(s))
  }

  lemma PayloadOfIsPayload(s: string)
    requires PayloadOf(s) != ""
    ensures IsPayload(PayloadOf(s))
  {
  }

  /** Every PRODUCE and REPLICATE that parses has a topic without whitespace and a non-empty payload of one line. */
  lemma ParsedPayload(raw: string)
    requires Parse(raw).kind in {PRODUCE, REPLICATE}
    ensures IsToken(Parse(raw).topic) && IsPayload(Parse(raw).payload) && Parse(raw).partition >= 0
    ensures Parse(raw).kind == PRODUCE ==> Parse(raw).partition < 3
  {
    hide Take, WholeInteger, PayloadOf, Token, AfterToken;
    var s := AfterToken(raw);
    if Parse(raw).kind == PRODUCE {
      PayloadOfIsPayload(Take(s, 2).value.rest);
    } else {
      PayloadOfIsPayload(Take(s, 3).value.rest);
    }
  }

  // ----- What the leader prints -----

  function ReplicateText(topic: string, partition: int, offset: nat, payload: string): string {
    "REPLICATE " + topic + " " + DecimalInt(partition) + " " + Decimal(offset) + " " + payload
  }

  function ProgressText(topic: string, partition: int): string {
    "REPLICATION_PROGRESS " + topic + " " + DecimalInt(partition)
  }

  lemma TakeToken(token: string, after: string, count: nat)
    requires IsToken(token) && (after == "" || IsSpace(after[0]))
    ensures Take(" " + token + after, count + 1)
         == match Take(after, count) case None => None case Some(f) => Some(Fields([token] + f.tokens, f.rest))
  {
    ReadsToken(token, after);
    hide Token, AfterToken;
  }

  lemma TakeNone(s: string)
    ensures Take(s, 0) == Some(Fields([], s))
  {
  }

  // What a payload becomes on its way through the REPLICATE text.
  function Delivered(payload: string): string {
    if AllSpaces(payload) then " " + payload else payload
  }

  lemma PayloadAfterSpace(payload: string)
    requires IsPayload(payload)
    ensures PayloadOf(" " + payload) == Delivered(payload)
  {
    var s := " " + payload;
    assert s + "" == s;
    ReadsLine(s, "");
    if AllSpaces(payload) {
      assert AllSpaces(s);
    } else {
      assert s[1..] == payload;
      assert DropSpaces(s) == DropSpaces(payload) == payload;
      assert !AllSpaces(s) by {
        var i :| 0 <= i < |payload| && payload[i] != ' ';
        assert s[i + 1] != ' ';
      }
    }
  }

  /** The REPLICATE text of a parsed payload reads back as it was meant; only a payload of spaces gains one. */
  lemma ReplicateReadsBack(topic: string, partition: nat, offset: nat, payload: string)
    requires IsToken(topic) && IsPayload(payload) && partition <= INT_MAX && offset <= LONG_LONG_MAX
    ensures Parse(ReplicateText(topic, partition, offset, payload))
         == BLANK.(kind := REPLICATE, topic := topic, partition := partition, offset := offset, payload := Delivered(payload))
  {
    hide Take, Token, AfterToken, WholeInteger, PayloadOf, Decimal, DropSpaces;
    var p, o := Decimal(partition), Decimal(offset);
    var tail := " " + payload;
    var s := " " + topic + (" " + p + (" " + o + tail));
    DecimalIsToken(partition);
    DecimalIsToken(offset);
    assert ReplicateText(topic, partition, offset, payload) == "REPLICATE" + s;
    assert IsToken("REPLICATE");
    ReadsToken("REPLICATE", s);
    TakeToken(topic, " " + p + (" " + o + tail), 2);
    TakeToken(p, " " + o + tail, 1);
    TakeToken(o, tail, 0);
    TakeNone(tail);
    assert Take(s, 3) == Some(Fields([topic] + ([p] + ([o] + [])), tail));
    PayloadAfterSpace(payload);
    ReadsDecimal(partition);
    ReadsDecimal(offset);
  }

  /** For every raw PRODUCE: what the leader prints for it parses back to the same record. */
  lemma ProduceReplicates(raw: string, offset: nat)
    requires Parse(raw).kind == PRODUCE && offset <= LONG_LONG_MAX
    ensures var p := Parse(raw);
      Parse(ReplicateText(p.topic, p.partition, offset, p.payload))
      == BLANK.(kind := REPLICATE, topic := p.topic, partition := p.partition, offset := offset, payload := Delivered(p.payload))
    ensures var p := Parse(raw);
      Parse(ReplicateText(p.topic, p.partition, offset, p.payload)).payload == p.payload <==> !AllSpaces(p.payload)
  {
    hide Parse, Decimal;
    ParsedPayload(raw);
    var p := Parse(raw);
    ReplicateReadsBack(p.topic, p.partition, offset, p.payload);
  }

  function ProduceText(topic: string, partition: int, payload: string): string {
    "PRODUCE " + topic + " " + DecimalInt(partition) + " " + payload
  }

  /** A producer's text reads back like the leader's. */
  lemma ProduceReadsBack(topic: string, partition: nat, payload: string)
    requires IsToken(topic) && IsPayload(payload) && partition < 3
    ensures Parse(ProduceText(topic, partition, payload))
         == BLANK.(kind := PRODUCE, topic := topic, partition := partition, payload := Delivered(payload))
  {
    hide Take, Token, AfterToken, WholeInteger, PayloadOf, Decimal, DropSpaces;
    var p, tail := Decimal(partition), " " + payload;
    var s := " " + topic + (" " + p + tail);
    DecimalIsToken(partition);
    assert ProduceText(topic, partition, payload) == "PRODUCE" + s;
    assert IsToken("PRODUCE");
    ReadsToken("PRODUCE", s);
    TakeToken(topic, " " + p + tail, 1);
    TakeToken(p, tail, 0);
    TakeNone(tail);
    assert Take(s, 2) == Some(Fields([topic] + ([p] + []), tail));
    PayloadAfterSpace(payload);
    ReadsDecimal(partition);
  }

  /** A payload of two spaces: it is stored as such by the leader, and with a third space by the follower. */
  lemma SpacesGainOne()
    ensures var p := Parse("PRODUCE t 0  ");
      && p.kind == PRODUCE && p.topic == "t" && p.partition == 0 && p.payload == "  "
      && Parse(ReplicateText(p.topic, p.partition, 0, p.payload)).payload == "   "
  {
    hide Parse;
    DecimalOfZero();
    assert ProduceText("t", 0, " ") == "PRODUCE t 0  ";
    assert IsToken("t") && IsPayload(" ") && IsPayload("  ");
    ProduceReadsBack("t", 0, " ");
    ReplicateReadsBack("t", 0, 0, "  ");
  }

  lemma DecimalOfZero()
    ensures Decimal(0) == "0" && DecimalInt(0) == "0"
  {
  }

  lemma ProgressReadsBack(topic: string, partition: nat)
    requires IsToken(topic) && partition <= INT_MAX
    ensures Parse(ProgressText(topic, partition)) == BLANK.(kind := REPLICATION_PROGRESS, topic := topic, partition := partition)
  {
    hide Take, Token, AfterToken, WholeInteger, Decimal;
    var p := Decimal(partition);
    DecimalIsToken(partition);
    var s := " " + topic + (" " + p + "");
    assert ProgressText(topic, partition) == "REPLICATION_PROGRESS" + s;
    assert IsToken("REPLICATION_PROGRESS");
    ReadsToken("REPLICATION_PROGRESS", s);
    TakeToken(topic, " " + p + "", 1);
    TakeToken(p, "", 0);
    TakeNone("");
    assert Take(s, 2) == Some(Fields([topic] + ([p] + []), ""));
    NoToken();
    ReadsDecimal(partition);
  }

  lemma NoToken()
    ensures Token("") == ""
  {
  }
}

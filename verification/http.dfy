/** The HTTP side of `fetchURL`: Arduino `String` searching and slicing, the
    response-header scan, the request path and the request text. */
module Http {
  import opened ApiTypes
  import opened Decimal

  // ---------------------------------------------------------------------
  // Arduino `String` helpers
  // ---------------------------------------------------------------------

  predicate OccursAt(s: string, pat: string, i: int)
  {
    0 <= i && i + |pat| <= |s| && s[i..i + |pat|] == pat
  }

  /** Position of the first NUL byte, or the length when there is none. */
  function NulIndex(s: string): (i: nat)
    ensures i <= |s|
    decreases |s|
  {
    if s == [] || s[0] == '\0' then 0 else 1 + NulIndex(s[1..])
  }

  /** The text a C routine sees in a buffer: everything before the first NUL
      byte. `strstr`, `strcmp` and `%s` all stop there, and `readStringUntil`
      keeps a NUL it reads inside the `String`. */
  function CStr(s: string): string
  {
    s[..NulIndex(s)]
  }

  /** The C string is a prefix of the buffer without NUL, and it stops either
      at the end of the buffer or at a NUL. */
  lemma {:induction false} CStrFacts(s: string)
    ensures CStr(s) <= s
    ensures '\0' !in CStr(s)
    ensures |CStr(s)| < |s| ==> s[|CStr(s)|] == '\0'
    decreases |s|
  {
    if s != [] && s[0] != '\0' {
      CStrFacts(s[1..]);
      assert CStr(s) == [s[0]] + CStr(s[1..]);
    }
  }

  /** Those three properties pin the C string down: it is the one prefix
      without a NUL that ends at the end or at a NUL. Text without a NUL is
      its own C string. */
  lemma CStrIsFirstNulPrefix(s: string, c: string)
    requires c <= s && '\0' !in c
    requires |c| == |s| || s[|c|] == '\0'
    ensures c == CStr(s)
    ensures '\0' !in s ==> CStr(s) == s
  {
    CStrFacts(s);
  }

  /** A head without NUL is read through, so the C string of `a + b` is `a`
      followed by the C string of `b`. */
  lemma {:induction false} CStrAfter(a: string, b: string)
    requires '\0' !in a
    ensures CStr(a + b) == a + CStr(b)
    decreases |a|
  {
    if a != [] {
      assert (a + b)[0] == a[0];
      assert (a + b)[1..] == a[1..] + b;
      CStrAfter(a[1..], b);
      assert NulIndex(a + b) == 1 + NulIndex(a[1..] + b);
    } else {
      assert a + b == b;
    }
  }

  /** First position at or after `from` where `pat` occurs, or -1. */
  function IndexOfFrom(s: string, pat: string, from: nat): (r: int)
    ensures r == -1 || (from <= r && OccursAt(s, pat, r))
    ensures r >= 0 ==> forall j :: from <= j < r ==> !OccursAt(s, pat, j)
    ensures r == -1 <==> forall j :: from <= j ==> !OccursAt(s, pat, j)
    decreases |s| - from
  {
    if from + |pat| > |s| then -1
    else if s[from..from + |pat|] == pat then from
    else IndexOfFrom(s, pat, from + 1)
  }

  /** `String::indexOf`: the first occurrence of `pat` in `s`, or -1. */
  function IndexOf(s: string, pat: string): (r: int)
    ensures r == -1 || OccursAt(s, pat, r)
    ensures r >= 0 ==> forall j :: 0 <= j < r ==> !OccursAt(s, pat, j)
    ensures r == -1 <==> forall j :: !OccursAt(s, pat, j)
  {
    IndexOfFrom(s, pat, 0)
  }

  /** `String::substring(left, right)`: reversed bounds are swapped, a right
      bound past the end is clamped, a left bound at or past the end gives
      the empty string. */
  function Substring(s: string, left: nat, right: nat): (r: string)
    ensures |r| <= |s|
    ensures left >= |s| && right >= |s| ==> r == []
    decreases if left > right then 1 else 0
  {
    if left > right then Substring(s, right, left)
    else if left >= |s| then ""
    else s[left..if right > |s| then |s| else right]
  }

  /** What `substring` returns for every pair of bounds, against plain
      slicing: the order of the bounds does not matter, in-range bounds give
      the slice, a right bound past the end reads to the end, and bounds at or
      past the end give nothing. */
  lemma SubstringCases(s: string, left: nat, right: nat)
    ensures Substring(s, left, right) == Substring(s, right, left)
    ensures left <= right <= |s| ==> Substring(s, left, right) == s[left..right]
    ensures left < |s| < right ==> Substring(s, left, right) == s[left..]
    ensures left >= |s| && right >= |s| ==> Substring(s, left, right) == []
    ensures |Substring(s, left, right)| <= |s|
  {
  }

  // ---------------------------------------------------------------------
  // Response headers
  // ---------------------------------------------------------------------

  const LengthFieldName: string := "Content-Length"

  /** Column where the scanner assumes the value of a length line begins:
      just past `Content-Length: `. */
  const LengthValueStart: nat := 16

  const Uint32Modulus: int := 0x1_0000_0000

  /** A header line that mentions the length field, anywhere before its first
      NUL byte and with exactly this capitalisation. */
  predicate IsLengthLine(line: string)
  {
    IndexOf(CStr(line), LengthFieldName) > -1
  }

  /** A line is a length line exactly when the field name occurs somewhere in
      its C string; for a line without NUL, somewhere in the line. */
  lemma IsLengthLineIff(line: string)
    ensures IsLengthLine(line) <==> exists i :: OccursAt(CStr(line), LengthFieldName, i)
    ensures '\0' !in line ==> (IsLengthLine(line) <==> exists i :: OccursAt(line, LengthFieldName, i))
  {
    if '\0' !in line {
      CStrIsFirstNulPrefix(line, line);
    }
  }

  /** The declared length as the scanner reads it: the text from column 16 up
      to the last character (the carriage return) read by `toInt`, whose
      `long` is then converted to a `uint32_t`. */
  function ContentLength(line: string): (n: nat)
    requires IsLengthLine(line)
    ensures n < Uint32Modulus
  {
    ToInt(Substring(line, LengthValueStart, |line| - 1)) % Uint32Modulus
  }

  /** What one header line does to the scan: let it pass, or stop it with
      a verdict. */
  datatype LineVerdict = Continue | TooLong | HeadersEnd

  /** The answer the scan gives when it stops on a line. */
  function VerdictError(v: LineVerdict): (e: ApiError)
    requires !v.Continue?
    ensures e == ResponseToLong || e == None
  {
    if v.TooLong? then ResponseToLong else None
  }

  /** The body of the header loop for one line: a length line declaring
      more than 2000 stops with `ResponseToLong`, the bare carriage return
      that separates headers from body stops with `None`, any other line is
      passed over. */
  function Classify(line: string): LineVerdict
  {
    if IsLengthLine(line) then
      if ContentLength(line) > MaxSizeReturnJson then TooLong else Continue
    else if CStr(line) == "\r" then HeadersEnd
    else Continue
  }

  /** Both directions of each verdict: a length line stops, with
      `ResponseToLong`, exactly when it declares more than 2000, and a line
      whose C string is the bare carriage return, which is no length line,
      always ends the headers. */
  lemma ClassifyCases(line: string)
    ensures Classify(line).TooLong? ==> IsLengthLine(line)
    ensures Classify(line).HeadersEnd? ==> CStr(line) == "\r" && !IsLengthLine(line)
    ensures CStr(line) == "\r" ==> Classify(line).HeadersEnd?
    ensures line == "\r" ==> Classify(line).HeadersEnd?
    ensures IsLengthLine(line) ==> (Classify(line).TooLong? <==> ContentLength(line) > MaxSizeReturnJson)
  {
    if line == "\r" {
      CStrIsFirstNulPrefix(line, line);
    }
    if CStr(line) == "\r" {
      forall i ensures !OccursAt(CStr(line), LengthFieldName, i) {
      }
    }
  }

  /** A line on which the scan stops. */
  predicate EndsScan(line: string)
  {
    !Classify(line).Continue?
  }

  /** What the scan returns when it stops on `line`. */
  function StopVerdict(line: string): ApiError
    requires EndsScan(line)
  {
    VerdictError(Classify(line))
  }

  /** Outcome of the header scan and the number of lines it read. */
  datatype ScanResult = ScanResult(error: ApiError, consumed: nat)

  /** The header loop over any per-line rule: read lines while any remain,
      stop on the first line the rule stops on, with its verdict; without
      such a line read everything and report `NoResponse`. */
  function ScanWith(lines: seq<string>, rule: string -> LineVerdict): (r: ScanResult)
    ensures r.consumed <= |lines|
    ensures r.error == NoResponse <==> forall j :: 0 <= j < |lines| ==> rule(lines[j]).Continue?
    ensures r.error == NoResponse ==> r.consumed == |lines|
    ensures r.error != NoResponse ==>
              && 1 <= r.consumed
              && !rule(lines[r.consumed - 1]).Continue?
              && r.error == VerdictError(rule(lines[r.consumed - 1]))
              && forall j :: 0 <= j < r.consumed - 1 ==> rule(lines[j]).Continue?
    decreases |lines|
  {
    if |lines| == 0 then ScanResult(NoResponse, 0)
    else
      var v := rule(lines[0]);
      if v.Continue? then PassOver(ScanWith(lines[1..], rule))
      else ScanResult(VerdictError(v), 1)
  }

  /** The scan after one more line was read and passed over. */
  function PassOver(r: ScanResult): ScanResult
  {
    ScanResult(r.error, r.consumed + 1)
  }

  /** The header loop of `fetchURL`. It stops on the first line that
      `EndsScan`, with that line's verdict, leaving the later lines unread;
      without such a line it reads everything and reports `NoResponse`. */
  function ScanHeaders(lines: seq<string>): (r: ScanResult)
    ensures r.consumed <= |lines|
    ensures r.error == NoResponse <==> forall j :: 0 <= j < |lines| ==> !EndsScan(lines[j])
    ensures r.error == NoResponse ==> r.consumed == |lines|
    ensures r.error != NoResponse ==>
              && 1 <= r.consumed
              && EndsScan(lines[r.consumed - 1])
              && r.error == StopVerdict(lines[r.consumed - 1])
              && forall j :: 0 <= j < r.consumed - 1 ==> !EndsScan(lines[j])
  {
    ScanWith(lines, Classify)
  }

  /** The header line `Content-Length: <value>` as a server sends it, before
      the line feed. */
  function LengthLine(value: string): string
  {
    LengthFieldName + ": " + value + "\r"
  }

  lemma LengthLineValue(value: string)
    ensures IsLengthLine(LengthLine(value))
    ensures ContentLength(LengthLine(value)) == ToInt(value) % Uint32Modulus
  {
    var line := LengthLine(value);
    assert line == LengthFieldName + (": " + value + "\r");
    CStrAfter(LengthFieldName, ": " + value + "\r");
    assert OccursAt(CStr(line), LengthFieldName, 0);
    SubstringCases(line, LengthValueStart, |line| - 1);
    assert line[LengthValueStart..|line| - 1] == value;
  }

  /** A declared length that reads as a non-negative value is taken exactly
      up to the largest `long` and saturates there, and it stops the scan
      exactly when it is above 2000. */
  lemma DeclaredLength(value: string, n: nat)
    requires AtoL(value) == n
    ensures IsLengthLine(LengthLine(value))
    ensures ContentLength(LengthLine(value)) == if n <= LongMax then n else LongMax
    ensures EndsScan(LengthLine(value)) <==> n > MaxSizeReturnJson
  {
    LengthLineValue(value);
  }

  /** A negative declared length, saturated at the smallest `long`, wraps
      around in the `uint32_t` and is rejected as too long. */
  lemma NegativeLengthWraps(value: string, m: nat)
    requires 1 <= m
    requires AtoL(value) == -(m as int)
    ensures IsLengthLine(LengthLine(value))
    ensures ContentLength(LengthLine(value)) == Uint32Modulus - (if m <= -LongMin then m else -LongMin)
    ensures EndsScan(LengthLine(value))
  {
    LengthLineValue(value);
  }

  /** `Content-Length: -1` is the smallest such case. */
  lemma MinusOneIsTooLong()
    ensures EndsScan(LengthLine("-1"))
    ensures StopVerdict(LengthLine("-1")) == ResponseToLong
  {
    assert FormatInt(-1) == "-1";
    AtoLFormatIntExact(-1);
    NegativeLengthWraps("-1", 1);
    LengthLineValue("-1");
  }

  /** A length whose text holds no digit reads as 0 and never stops the scan. */
  lemma UnreadableLengthIsZero(value: string)
    requires forall i :: 0 <= i < |value| ==> !IsDigit(value[i])
    ensures IsLengthLine(LengthLine(value))
    ensures ContentLength(LengthLine(value)) == 0
    ensures !EndsScan(LengthLine(value))
  {
    AtoLNoDigits(value);
    DeclaredLength(value, 0);
  }

  /** The field name is matched case-sensitively: a line without a capital
      `C` is never a length line. */
  lemma NameIsCaseSensitive(line: string)
    requires forall i :: 0 <= i < |line| ==> line[i] != 'C'
    ensures !IsLengthLine(line)
  {
    var c := CStr(line);
    forall j
      ensures !OccursAt(c, LengthFieldName, j)
    {
      if 0 <= j < |c| {
        assert c[j] == line[j] != LengthFieldName[0];
      }
    }
  }

  /** Lines the rule lets pass are read and passed over: the scan of
      `pre + post` is the scan of `post`, shifted by `|pre|`. */
  lemma {:induction false} ScanWithPassesOver(pre: seq<string>, post: seq<string>, rule: string -> LineVerdict)
    requires forall j :: 0 <= j < |pre| ==> rule(pre[j]).Continue?
    ensures ScanWith(pre + post, rule)
            == ScanResult(ScanWith(post, rule).error, |pre| + ScanWith(post, rule).consumed)
    decreases |pre|
  {
    if |pre| > 0 {
      assert (pre + post)[0] == pre[0];
      assert (pre + post)[1..] == pre[1..] + post;
      ScanWithPassesOver(pre[1..], post, rule);
    } else {
      assert pre + post == post;
    }
  }

  /** Header lines that do not stop the scan are read and passed over. */
  lemma ScanPassesOver(pre: seq<string>, post: seq<string>)
    requires forall j :: 0 <= j < |pre| ==> !EndsScan(pre[j])
    ensures ScanHeaders(pre + post)
            == ScanResult(ScanHeaders(post).error, |pre| + ScanHeaders(post).consumed)
  {
    ScanWithPassesOver(pre, post, Classify);
  }

  /** The bound on the declared length: after ordinary lines, a length line
      above 2000 ends the scan with `ResponseToLong` at once, one at or
      below 2000 is passed over like any other line. */
  lemma DeclaredLengthBound(pre: seq<string>, value: string, n: nat, post: seq<string>)
    requires forall j :: 0 <= j < |pre| ==> !EndsScan(pre[j])
    requires AtoL(value) == n
    ensures var r := ScanHeaders(pre + [LengthLine(value)] + post);
            if n > MaxSizeReturnJson then r == ScanResult(ResponseToLong, |pre| + 1)
            else r == ScanResult(ScanHeaders(post).error, |pre| + 1 + ScanHeaders(post).consumed)
  {
    var line := LengthLine(value);
    DeclaredLength(value, n);
    assert pre + [line] + post == pre + ([line] + post);
    ScanPassesOver(pre, [line] + post);
    assert ([line] + post)[1..] == post;
  }

  /** After ordinary lines, the bare carriage return ends the headers with
      `None`, leaving everything after it unread. */
  lemma BlankLineEndsHeaders(pre: seq<string>, post: seq<string>)
    requires forall j :: 0 <= j < |pre| ==> !EndsScan(pre[j])
    ensures ScanHeaders(pre + ["\r"] + post) == ScanResult(None, |pre| + 1)
  {
    ClassifyCases("\r");
    assert pre + ["\r"] + post == pre + (["\r"] + post);
    ScanPassesOver(pre, ["\r"] + post);
  }

  /** The comparisons see a line only up to its first NUL byte: a length
      field behind a NUL goes unnoticed, and a carriage return followed by a
      NUL still ends the headers. */
  lemma NulHidesTheRest()
    ensures !EndsScan("\0" + LengthLine("99999"))
    ensures EndsScan("\r\0") && StopVerdict("\r\0") == None
  {
    assert CStr("\0" + LengthLine("99999")) == [];
    assert CStr("\r\0") == "\r";
    NameIsCaseSensitive("\r\0");
  }

  /** An empty line, as a bare line feed leaves it, is an ordinary header:
      it neither ends the headers nor mentions the length field. */
  lemma EmptyLineIsOrdinary()
    ensures !EndsScan("")
  {
  }

  /** A lower-case length line with a numeric value is an ordinary header. */
  lemma LowerCaseLengthLine(value: string)
    requires forall i :: 0 <= i < |value| ==> IsDigit(value[i])
    ensures !EndsScan("content-length: " + value + "\r")
  {
    var name := "content-length: ";
    var line := name + value + "\r";
    forall i | 0 <= i < |line|
      ensures line[i] != 'C'
    {
      if i < |name| {
        assert line[i] == name[i];
      } else if i < |name| + |value| {
        assert line[i] == value[i - |name|];
      }
    }
    NameIsCaseSensitive(line);
    assert line == name + (value + "\r");
    CStrAfter(name, value + "\r");
  }

  /** A lower-case field name is ignored however large its value, so the
      scan reaches the blank line and ends with `None`. */
  lemma LowerCaseLengthIgnored(value: string, post: seq<string>)
    requires forall i :: 0 <= i < |value| ==> IsDigit(value[i])
    ensures ScanHeaders(["content-length: " + value + "\r", "\r"] + post) == ScanResult(None, 2)
  {
    var line := "content-length: " + value + "\r";
    LowerCaseLengthLine(value);
    BlankLineEndsHeaders([line], post);
    assert [line] + ["\r"] + post == [line, "\r"] + post;
  }

  // ---------------------------------------------------------------------
  // Request path and request text
  // ---------------------------------------------------------------------

  /** The path `sprintf` writes from `/v1/projects/%d?api_key=%s`; `%s`
      copies the key up to its terminating NUL. */
  function PathFor(id: int, key: string): (p: string)
    ensures |p| == |ProjectsPrefix| + |FormatInt(id)| + |ApiKeyQuery| + |CStr(key)|
  {
    ProjectsPrefix + FormatInt(id) + ApiKeyQuery + CStr(key)
  }

  /** The formatted path and its terminator fit the 75-byte buffer. */
  predicate PathFits(id: int, key: string)
  {
    |PathFor(id, key)| < RequestBufferSize
  }

  lemma PathFitsIff(id: int, key: string)
    ensures PathFits(id, key) <==> 22 + |FormatInt(id)| + |CStr(key)| <= 74
  {
  }

  datatype PathQuery = PathQuery(id: int, key: string) | NotProjectPath

  /** Reads a project path back: the number after the prefix and the key
      after the first `?api_key=`. */
  function ParsePath(p: string): PathQuery
  {
    if |p| < |ProjectsPrefix| || p[..|ProjectsPrefix|] != ProjectsPrefix then NotProjectPath
    else
      var rest := p[|ProjectsPrefix|..];
      var i := IndexOf(rest, ApiKeyQuery);
      if i < 0 then NotProjectPath
      else PathQuery(AtoL(rest[..i]), rest[i + |ApiKeyQuery|..])
  }

  /** The path names its project and the C string of its key
      unambiguously; a key without NUL is recovered whole. */
  lemma PathRoundTrip(id: int, key: string)
    ensures ParsePath(PathFor(id, key)) == PathQuery(id, CStr(key))
    ensures '\0' !in key ==> ParsePath(PathFor(id, key)) == PathQuery(id, key)
  {
    var digits := FormatInt(id);
    var p := PathFor(id, key);
    var rest := p[|ProjectsPrefix|..];
    assert p[..|ProjectsPrefix|] == ProjectsPrefix;
    assert rest == digits + ApiKeyQuery + CStr(key);
    assert OccursAt(rest, ApiKeyQuery, |digits|);
    forall j | 0 <= j < |digits|
      ensures !OccursAt(rest, ApiKeyQuery, j)
    {
      assert rest[j] != ApiKeyQuery[0];
    }
    assert IndexOf(rest, ApiKeyQuery) == |digits|;
    assert rest[..|digits|] == digits;
    assert rest[|digits| + |ApiKeyQuery|..] == CStr(key);
    AtoLFormatIntExact(id);
    if '\0' !in key {
      CStrIsFirstNulPrefix(key, key);
    }
  }

  lemma PathInjective(id1: int, key1: string, id2: int, key2: string)
    ensures PathFor(id1, key1) == PathFor(id2, key2) <==> id1 == id2 && CStr(key1) == CStr(key2)
  {
    PathRoundTrip(id1, key1);
    PathRoundTrip(id2, key2);
  }

  /** The text `fetchURL` prints: request line, `Host` and `Cache-Control`
      headers and the blank line, each ended by a bare line feed. */
  function RequestText(path: string): (t: string)
    ensures |t| == |path| + 61
  {
    "GET " + path + " HTTP/1.1\nHost: " + Host + "\nCache-Control: no-cache\n\n"
  }

  predicate NoNewline(s: string)
  {
    forall i :: 0 <= i < |s| ==> s[i] != '\n'
  }

  function JoinLines(ls: seq<string>): string
    requires |ls| >= 1
  {
    if |ls| == 1 then ls[0] else ls[0] + "\n" + JoinLines(ls[1..])
  }

  /** Position of the first `c` at or after `from`, or -1: the stopping
      point of `readStringUntil(c)`. */
  function FindChar(s: string, c: char, from: nat): (i: int)
    requires from <= |s|
    ensures i == -1 || from <= i < |s|
    ensures i == -1 ==> forall j :: from <= j < |s| ==> s[j] != c
    ensures i >= 0 ==> s[i] == c && forall j :: from <= j < i ==> s[j] != c
    decreases |s| - from
  {
    if from == |s| then -1
    else if s[from] == c then from
    else FindChar(s, c, from + 1)
  }

  /** Splits text at every line feed, as a reader calling
      `readStringUntil('\n')` sees it. */
  function SplitLines(s: string): (ls: seq<string>)
    ensures |ls| >= 1
    ensures forall i :: 0 <= i < |ls| ==> NoNewline(ls[i])
    ensures JoinLines(ls) == s
    decreases |s|
  {
    var i := FindChar(s, '\n', 0);
    if i < 0 then [s]
    else
      var line, rest := s[..i], SplitLines(s[i + 1..]);
      JoinCons(line, rest);
      assert s == line + [s[i]] + s[i + 1..];
      [line] + rest
  }

  lemma JoinCons(line: string, rest: seq<string>)
    requires |rest| >= 1
    ensures JoinLines([line] + rest) == line + "\n" + JoinLines(rest)
  {
    assert ([line] + rest)[1..] == rest;
  }

  /** Splitting undoes joining when no line holds a line feed. */
  lemma {:induction false} SplitJoin(ls: seq<string>)
    requires |ls| >= 1
    requires forall i :: 0 <= i < |ls| ==> NoNewline(ls[i])
    ensures SplitLines(JoinLines(ls)) == ls
    decreases |ls|
  {
    var s := JoinLines(ls);
    var a := ls[0];
    if |ls| > 1 {
      var tail := JoinLines(ls[1..]);
      assert s == a + [s[|a|]] + tail;
      assert FindChar(s, '\n', 0) == |a|;
      assert s[..|a|] == a;
      assert s[|a| + 1..] == tail;
      SplitJoin(ls[1..]);
      assert ls == [a] + ls[1..];
    }
  }

  /** The lines of a request for `path`, without their terminators. */
  function RequestLineList(path: string): seq<string>
  {
    ["GET " + path + " HTTP/1.1", "Host: " + Host, "Cache-Control: no-cache", "", ""]
  }

  /** The request lines joined, written out by their pieces. */
  function RequestPieces(path: string): string
  {
    ("GET " + path + " HTTP/1.1") + "\n" + (("Host: " + Host) + "\n" + ("Cache-Control: no-cache" + "\n" + "\n"))
  }

  lemma JoinedRequestLines(path: string)
    ensures JoinLines(RequestLineList(path)) == RequestPieces(path)
  {
    var ls := RequestLineList(path);
    var a, b, c := ls[0], ls[1], ls[2];
    assert JoinLines(ls[3..]) == "\n" by {
      JoinCons("", [""]);
      assert ls[3..] == [""] + [""];
    }
    assert JoinLines(ls[2..]) == c + "\n" + "\n" by {
      JoinCons(c, ls[3..]);
      assert ls[2..] == [c] + ls[3..];
    }
    assert JoinLines(ls[1..]) == b + "\n" + (c + "\n" + "\n") by {
      JoinCons(b, ls[2..]);
      assert ls[1..] == [b] + ls[2..];
    }
    JoinCons(a, ls[1..]);
    assert ls == [a] + ls[1..];
  }

  /** The two printed literals that span line breaks, cut at them. */
  lemma RequestLiterals()
    ensures " HTTP/1.1\nHost: " == " HTTP/1.1" + "\n" + "Host: "
    ensures "\nCache-Control: no-cache\n\n" == "\n" + "Cache-Control: no-cache" + "\n" + "\n"
  {
  }

  /** The printed pieces regrouped at the line feeds they contain. */
  lemma RequestTextPieces(path: string)
    ensures RequestText(path) == RequestPieces(path)
  {
    var version, hostLabel, cache := " HTTP/1.1", "Host: ", "Cache-Control: no-cache";
    var get, nl := "GET ", "\n";
    RequestLiterals();
    calc {
      RequestPieces(path);
      (get + path + version) + nl + ((hostLabel + Host) + nl + (cache + nl + nl));
      get + path + (version + nl + hostLabel) + Host + (nl + cache + nl + nl);
    }
  }

  /** The printed request is its five lines joined by line feeds. */
  lemma RequestTextJoins(path: string)
    ensures JoinLines(RequestLineList(path)) == RequestText(path)
  {
    JoinedRequestLines(path);
    RequestTextPieces(path);
  }

  /** The request is a request line, a `Host` line, a `Cache-Control` line
      and the blank line, each ended by a bare line feed rather than CRLF. */
  lemma RequestLines(path: string)
    requires NoNewline(path)
    ensures SplitLines(RequestText(path)) == RequestLineList(path)
  {
    RequestTextJoins(path);
    var ls := RequestLineList(path);
    assert NoNewline(ls[0]);
    assert NoNewline(ls[1]);
    assert NoNewline(ls[2]);
    SplitJoin(RequestLineList(path));
  }
}

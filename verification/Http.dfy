/** An HTTP request read from a buffer piece by piece. */
module Http {
  import opened Bytes
  import opened NetBuffer

  datatype Method = Invalid | Get | Post | Head | Put | Delete

  datatype Version = Unknown | Http10 | Http11

  datatype Request = Request(
    meth: Method, version: Version, path: seq<byte>, query: seq<byte>, headers: map<seq<byte>, seq<byte>>)

  const EmptyRequest := Request(Invalid, Unknown, [], [], map[])

  const SP: byte := 32
  const Question: byte := 63
  const Colon: byte := 58
  const VersionPrefix: seq<byte> := [72, 84, 84, 80, 47, 49, 46]
  const Zero: byte := 48
  const One: byte := 49

  /** The name of a method, in ASCII. */
  function MethodName(m: Method): seq<byte>
    requires m != Invalid
  {
    match m
    case Get => [71, 69, 84]
    case Post => [80, 79, 83, 84]
    case Head => [72, 69, 65, 68]
    case Put => [80, 85, 84]
    case Delete => [68, 69, 76, 69, 84, 69]
  }

  function MethodOf(m: seq<byte>): (r: Method)
    ensures r != Invalid ==> m == MethodName(r)
    ensures forall k | k != Invalid :: m == MethodName(k) ==> r == k
  {
    if m == [71, 69, 84] then Get
    else if m == [80, 79, 83, 84] then Post
    else if m == [72, 69, 65, 68] then Head
    else if m == [80, 85, 84] then Put
    else if m == [68, 69, 76, 69, 84, 69] then Delete
    else Invalid
  }

  predicate IsSpace(b: byte) {
    b == 32 || 9 <= b <= 13
  }

  /** Position of the first b at or after i, or the length. */
  function Find(s: seq<byte>, b: byte, i: nat): (r: nat)
    requires i <= |s|
    ensures i <= r <= |s|
    ensures r < |s| ==> s[r] == b
    ensures forall k | i <= k < r :: s[k] != b
    decreases |s| - i
  {
    if i == |s| || s[i] == b then i else Find(s, b, i + 1)
  }

  function TrimLeft(s: seq<byte>): seq<byte> {
    if s != [] && IsSpace(s[0]) then TrimLeft(s[1..]) else s
  }

  function TrimRight(s: seq<byte>): seq<byte> {
    if s != [] && IsSpace(s[|s| - 1]) then TrimRight(s[..|s| - 1]) else s
  }

  function Trim(s: seq<byte>): seq<byte> {
    TrimRight(TrimLeft(s))
  }

  // ----- one line -----

  function ProcessRequestLine(req: Request, line: seq<byte>): (Request, bool) {
    var space := Find(line, SP, 0);
    if space == |line| then (req, false)
    else
      var named := req.(meth := MethodOf(line[..space]));
      if named.meth == Invalid then (named, false)
      else
        var start := space + 1;
        var space2 := Find(line, SP, start);
        if space2 == |line| then (named, false)
        else
          var target := line[start..space2];
          var question := Find(target, Question, 0);
          var aimed := if question != |target|
                       then named.(path := target[..question], query := target[question..])
                       else named.(path := target);
          var proto := line[space2 + 1..];
          if |proto| == 8 && proto[..7] == VersionPrefix then
            if proto[7] == One then (aimed.(version := Http11), true)
            else if proto[7] == Zero then (aimed.(version := Http10), true)
            else (aimed, false)
          else (aimed, false)
  }

  function AddHeader(req: Request, line: seq<byte>, colon: nat): Request
    requires colon < |line|
  {
    req.(headers := req.headers[line[..colon] := Trim(line[colon + 1..])])
  }

  // ----- the whole input -----

  datatype ParseState = ExpectRequestLine | ExpectHeaders | GotAll

  datatype Context = Context(state: ParseState, request: Request)

  const Start := Context(ExpectRequestLine, EmptyRequest)

  datatype Parsed = Parsed(context: Context, rest: seq<byte>, ok: bool)

  /** What a complete line does: refused, the end of the headers, or on to the next line. */
  datatype Effect = Refused(context: Context) | Last(context: Context) | Next(context: Context)

  function OneLine(c: Context, line: seq<byte>): (e: Effect)
    requires c.state != GotAll
    ensures e.Next? ==> e.context.state == ExpectHeaders
    ensures e.Refused? ==> e.context.state == c.state
    ensures e.Last? <==> e.context.state == GotAll
  {
    if c.state == ExpectRequestLine then
      var (request, ok) := ProcessRequestLine(c.request, line);
      if ok then Next(Context(ExpectHeaders, request)) else Refused(Context(ExpectRequestLine, request))
    else
      var colon := Find(line, Colon, 0);
      if colon != |line| then Next(Context(ExpectHeaders, AddHeader(c.request, line, colon)))
      else Last(Context(GotAll, c.request))
  }

  /** What one call does with the bytes in the buffer. */
  function Parse(c: Context, input: seq<byte>): Parsed
    requires c.state != GotAll
    decreases |input|
  {
    var crlf := FindCRLF(input, 0);
    if crlf == |input| then Parsed(c, input, true)
    else
      match OneLine(c, input[..crlf])
      case Refused(d) => Parsed(d, input, false)
      case Last(d) => Parsed(d, input[crlf + 2..], true)
      case Next(d) => Parse(d, input[crlf + 2..])
  }

  /** One pass over the first complete line. */
  lemma ParseUnfolds(c: Context, input: seq<byte>)
    requires c.state != GotAll
    ensures var k := FindCRLF(input, 0);
      Parse(c, input) ==
        if k == |input| then Parsed(c, input, true)
        else
          var e := OneLine(c, input[..k]);
          if e.Next? then Parse(e.context, input[k + 2..])
          else Parsed(e.context, if e.Last? then input[k + 2..] else input, e.Last?)
  {
    hide OneLine;
  }

  // ----- the program's objects -----

  class HttpRequest {
    var meth: Method
    var version: Version
    var path: seq<byte>
    var query: seq<byte>
    var headers: map<seq<byte>, seq<byte>>

    function View(): Request
      reads this
    {
      Request(meth, version, path, query, headers)
    }

    constructor ()
      ensures View() == EmptyRequest
    {
      meth, version, path, query, headers := Invalid, Unknown, [], [], map[];
    }

    method SetMethod(m: seq<byte>) returns (ok: bool)
      requires meth == Invalid
      modifies this`meth
      ensures meth == MethodOf(m) && ok == (meth != Invalid)
    {
      meth := MethodOf(m);
      return meth != Invalid;
    }

    /** Trims the value with one loop from each end. */
    method AddHeaderLine(line: seq<byte>, colon: nat)
      requires colon < |line|
      modifies this`headers
      ensures View() == AddHeader(old(View()), line, colon)
    {
      var field := line[..colon];
      var begin := colon + 1;
      while begin < |line| && IsSpace(line[begin])
        invariant colon < begin <= |line|
        invariant TrimLeft(line[begin..]) == TrimLeft(line[colon + 1..])
      {
        assert line[begin..][1..] == line[begin + 1..];
        begin := begin + 1;
      }
      var value := line[begin..];
      assert value == TrimLeft(line[colon + 1..]);
      while |value| > 0 && IsSpace(value[|value| - 1])
        invariant TrimRight(value) == Trim(line[colon + 1..])
      {
        value := value[..|value| - 1];
      }
      headers := headers[field := value];
    }
  }

  class HttpContext {
    var state: ParseState
    const request: HttpRequest

    function View(): Context
      reads this, request
    {
      Context(state, request.View())
    }

    constructor ()
      ensures View() == Start && fresh(request)
    {
      state := ExpectRequestLine;
      request := new HttpRequest();
    }

    method ProcessLine(line: seq<byte>) returns (succeed: bool)
      requires request.meth == Invalid
      modifies request
      ensures (request.View(), succeed) == ProcessRequestLine(old(request.View()), line)
    {
      succeed := false;
      var space := Find(line, SP, 0);
      if space != |line| {
        var known := request.SetMethod(line[..space]);
        if known {
          var start := space + 1;
          space := Find(line, SP, start);
          if space != |line| {
            var target := line[start..space];
            var question := Find(target, Question, 0);
            if question != |target| {
              request.path := target[..question];
              request.query := target[question..];
            } else {
              request.path := target;
            }
            var proto := line[space + 1..];
            succeed := |proto| == 8 && proto[..7] == VersionPrefix;
            if succeed {
              if proto[7] == One {
                request.version := Http11;
              } else if proto[7] == Zero {
                request.version := Http10;
              } else {
                succeed := false;
              }
            }
          }
        }
      }
    }

    /** The effect of a complete line on the context. */
    method HandleLine(line: seq<byte>) returns (ok: bool, hasMore: bool)
      requires state != GotAll && (state == ExpectRequestLine ==> request.meth == Invalid)
      modifies this, request
      ensures var e := OneLine(old(View()), line);
        View() == e.context && ok == !e.Refused? && hasMore == e.Next?
    {
      hide ProcessRequestLine, AddHeader;
      ok, hasMore := true, true;
      if state == ExpectRequestLine {
        ok := ProcessLine(line);
        if ok {
          state := ExpectHeaders;
        } else {
          hasMore := false;
        }
      } else {
        var colon := Find(line, Colon, 0);
        if colon != |line| {
          request.AddHeaderLine(line, colon);
        } else {
          state := GotAll;
          hasMore := false;
        }
      }
    }

    /** Consumes complete lines; each pass that goes on takes at least the two bytes of a line end. */
    method ParseRequest(buf: Buffer) returns (ok: bool)
      requires buf.Valid()
      requires state != GotAll && (state == ExpectRequestLine ==> request.meth == Invalid)
      modifies this, request, buf`readerIndex, buf`writerIndex
      ensures buf.Valid()
      ensures Parsed(View(), buf.Contents(), ok) == Parse(old(View()), old(buf.Contents()))
    {
      hide OneLine, Parse, FindCRLF;
      ghost var c, input := View(), buf.Contents();
      ok := true;
      var hasMore := true;
      while hasMore
        invariant buf.Valid()
        invariant hasMore && state == ExpectRequestLine ==> request.meth == Invalid
        invariant hasMore ==> ok && state != GotAll && Parse(View(), buf.Contents()) == Parse(c, input)
        invariant !hasMore ==> Parsed(View(), buf.Contents(), ok) == Parse(c, input)
        decreases hasMore, buf.ReadableBytes()
      {
        ParseUnfolds(View(), buf.Contents());
        var crlf := buf.SearchCRLF();
        if crlf.None? {
          hasMore := false;
        } else {
          var line := buf.Peek(crlf.value);
          ok, hasMore := HandleLine(line);
          if ok {
            buf.Retrieve(crlf.value + 2);
          }
        }
      }
    }
  }

  // ----- any split of the input -----

  lemma FindCRLFStable(a: seq<byte>, b: seq<byte>)
    requires FindCRLF(a, 0) < |a|
    ensures FindCRLF(a + b, 0) == FindCRLF(a, 0)
  {
    var k := FindCRLF(a, 0);
    assert IsCRLF(a + b, k);
    assert forall i | 0 <= i < k :: IsCRLF(a + b, i) ==> IsCRLF(a, i);
  }

  /** Parsing in two steps ends where parsing at once ends, unless the first step already finished. */
  lemma {:induction false} ParseSplits(c: Context, a: seq<byte>, b: seq<byte>)
    requires c.state != GotAll
    ensures var first := Parse(c, a);
      Parse(c, a + b) ==
        if first.ok && first.context.state != GotAll then Parse(first.context, first.rest + b)
        else Parsed(first.context, first.rest + b, first.ok)
    decreases |a|
  {
    hide OneLine;
    var crlf := FindCRLF(a, 0);
    if crlf < |a| {
      FindCRLFStable(a, b);
      assert (a + b)[..crlf] == a[..crlf];
      assert (a + b)[crlf + 2..] == a[crlf + 2..] + b;
      var e := OneLine(c, a[..crlf]);
      if e.Next? {
        ParseSplits(e.context, a[crlf + 2..], b);
      }
    }
  }

  lemma {:induction false} RestIsIncomplete(c: Context, a: seq<byte>)
    requires c.state != GotAll
    ensures var p := Parse(c, a);
      p.ok && p.context.state != GotAll ==> Parse(p.context, p.rest) == p
    decreases |a|
  {
    hide OneLine;
    var crlf := FindCRLF(a, 0);
    if crlf < |a| {
      var e := OneLine(c, a[..crlf]);
      if e.Next? {
        RestIsIncomplete(e.context, a[crlf + 2..]);
      }
    }
  }

  /** Chunks are fed until the request is complete or refused; what is not fed stays unread. */
  function Feed(c: Context, pending: seq<byte>, chunks: seq<seq<byte>>): Parsed
    requires c.state != GotAll
    decreases chunks
  {
    if chunks == [] then Parsed(c, pending, true)
    else
      var p := Parse(c, pending + chunks[0]);
      if p.ok && p.context.state != GotAll then Feed(p.context, p.rest, chunks[1..])
      else Parsed(p.context, p.rest + Concat(chunks[1..]), p.ok)
  }

  /** State, request and unread remainder depend only on the concatenation of the chunks. */
  lemma {:induction false} SplitDoesNotMatter(c: Context, pending: seq<byte>, chunks: seq<seq<byte>>)
    requires c.state != GotAll && Parse(c, pending) == Parsed(c, pending, true)
    ensures Feed(c, pending, chunks) == Parse(c, pending + Concat(chunks))
    decreases chunks
  {
    hide Parse;
    if chunks == [] {
      assert pending + Concat(chunks) == pending;
    } else {
      var p := Parse(c, pending + chunks[0]);
      ParseSplits(c, pending + chunks[0], Concat(chunks[1..]));
      assert pending + Concat(chunks) == pending + chunks[0] + Concat(chunks[1..]);
      if p.ok && p.context.state != GotAll {
        RestIsIncomplete(c, pending + chunks[0]);
        SplitDoesNotMatter(p.context, p.rest, chunks[1..]);
      }
    }
  }

  lemma RequestDependsOnBytesOnly(chunks: seq<seq<byte>>)
    ensures Feed(Start, [], chunks) == Parse(Start, Concat(chunks))
  {
    SplitDoesNotMatter(Start, [], chunks);
    assert [] + Concat(chunks) == Concat(chunks);
  }

  // ----- trimming -----

  predicate AllSpace(s: seq<byte>) {
    forall i | 0 <= i < |s| :: IsSpace(s[i])
  }

  predicate Trimmed(s: seq<byte>) {
    s != [] ==> !IsSpace(s[0]) && !IsSpace(s[|s| - 1])
  }

  lemma {:induction false} TrimLeftSplits(s: seq<byte>) returns (l: seq<byte>)
    ensures s == l + TrimLeft(s) && AllSpace(l)
    ensures TrimLeft(s) != [] ==> !IsSpace(TrimLeft(s)[0])
  {
    if s != [] && IsSpace(s[0]) {
      var rest := TrimLeftSplits(s[1..]);
      l := [s[0]] + rest;
    } else {
      l := [];
    }
  }

  lemma {:induction false} TrimRightSplits(s: seq<byte>) returns (r: seq<byte>)
    ensures s == TrimRight(s) + r && AllSpace(r)
    ensures TrimRight(s) != [] ==> !IsSpace(TrimRight(s)[|TrimRight(s)| - 1]) && TrimRight(s)[0] == s[0]
  {
    if s != [] && IsSpace(s[|s| - 1]) {
      var rest := TrimRightSplits(s[..|s| - 1]);
      r := rest + [s[|s| - 1]];
    } else {
      r := [];
    }
  }

  /** The stored value is the text between the outer white space. */
  lemma TrimSplits(s: seq<byte>) returns (l: seq<byte>, r: seq<byte>)
    ensures s == l + Trim(s) + r && AllSpace(l) && AllSpace(r) && Trimmed(Trim(s))
  {
    l := TrimLeftSplits(s);
    r := TrimRightSplits(TrimLeft(s));
  }

  lemma TrimOfTrimmed(s: seq<byte>)
    requires Trimmed(s)
    ensures Trim([SP] + s) == s
  {
    assert ([SP] + s)[1..] == s;
    assert TrimLeft([SP] + s) == TrimLeft(s) == s;
  }

  // ----- which lines are accepted -----

  /** The bytes of a text in ASCII. */
  function Ascii(text: string): seq<byte>
    requires forall i | 0 <= i < |text| :: text[i] as int < 128
  {
    seq(|text|, i requires 0 <= i < |text| => text[i] as int)
  }

  /** The methods and versions that are known, by name. */
  predicate Known(m: Method, name: seq<byte>) {
    match m
    case Get => name == Ascii("GET")
    case Post => name == Ascii("POST")
    case Head => name == Ascii("HEAD")
    case Put => name == Ascii("PUT")
    case Delete => name == Ascii("DELETE")
    case Invalid => false
  }

  predicate KnownVersion(v: Version, text: seq<byte>) {
    match v
    case Http11 => text == Ascii("HTTP/1.1")
    case Http10 => text == Ascii("HTTP/1.0")
    case Unknown => false
  }

  lemma MethodExactly(m: Method, name: seq<byte>)
    requires m != Invalid
    ensures MethodOf(name) == m <==> Known(m, name)
  {
    assert Ascii("GET") == [71, 69, 84] && Ascii("POST") == [80, 79, 83, 84] && Ascii("HEAD") == [72, 69, 65, 68];
    assert Ascii("PUT") == [80, 85, 84] && Ascii("DELETE") == [68, 69, 76, 69, 84, 69];
  }

  lemma VersionExactly(v: Version, text: seq<byte>)
    requires v != Unknown
    ensures KnownVersion(v, text) <==>
      |text| == 8 && text[..7] == VersionPrefix && text[7] == (if v == Http11 then One else Zero)
  {
    var minor: byte := if v == Http11 then 49 else 48;
    assert VersionPrefix == Ascii("HTTP/1.");
    assert Ascii("HTTP/1.1") == VersionPrefix + [49] && Ascii("HTTP/1.0") == VersionPrefix + [48];
    if |text| == 8 && text[..7] == VersionPrefix && text[7] == minor {
      assert text == VersionPrefix + [minor];
    }
  }

  /** A known method, a target without a space, and a known version, joined by single spaces. */
  ghost predicate RequestLineOf(line: seq<byte>, m: Method, target: seq<byte>, v: Version) {
    exists name, proto ::
      Known(m, name) && 32 !in target && KnownVersion(v, proto) && line == name + [32] + target + [32] + proto
  }

  lemma PartsOfAccepted(req: Request, line: seq<byte>)
    requires ProcessRequestLine(req, line).1
    ensures Find(line, SP, 0) < |line| && MethodOf(line[..Find(line, SP, 0)]) != Invalid
    ensures Find(line, SP, Find(line, SP, 0) + 1) < |line|
    ensures var proto := line[Find(line, SP, Find(line, SP, 0) + 1) + 1..];
      |proto| == 8 && proto[..7] == VersionPrefix && (proto[7] == One || proto[7] == Zero)
  {
    hide MethodOf, Find;
  }

  /** The method, target and version of an accepted line. */
  lemma AcceptedShape(req: Request, line: seq<byte>) returns (m: Method, target: seq<byte>, v: Version)
    requires ProcessRequestLine(req, line).1
    ensures RequestLineOf(line, m, target, v)
  {
    hide Known, KnownVersion, ProcessRequestLine, MethodOf, Find;
    PartsOfAccepted(req, line);
    var space := Find(line, SP, 0);
    var space2 := Find(line, SP, space + 1);
    var name, proto := line[..space], line[space2 + 1..];
    m, target := MethodOf(name), line[space + 1..space2];
    v := if proto[7] == One then Http11 else Http10;
    MethodExactly(m, name);
    VersionExactly(v, proto);
    assert 32 !in target by {
      assert forall i | 0 <= i < |target| :: target[i] == line[space + 1 + i];
    }
    assert line == name + [32] + target + [32] + proto;
  }

  lemma MethodsHaveNoSpace(m: Method, name: seq<byte>)
    requires Known(m, name)
    ensures NoByte(name, SP)
  {
  }

  /** What a line does whose spaces stand at these places. */
  lemma PartsAreRead(req: Request, line: seq<byte>, space: nat, space2: nat, v: Version)
    requires space == Find(line, SP, 0) < |line| && space2 == Find(line, SP, space + 1) < |line|
    requires MethodOf(line[..space]) != Invalid && v != Unknown
    requires var proto := line[space2 + 1..];
      |proto| == 8 && proto[..7] == VersionPrefix && proto[7] == if v == Http11 then One else Zero
    ensures var target := line[space + 1..space2]; var mark := Find(target, Question, 0);
      ProcessRequestLine(req, line) ==
        if mark == |target| then (req.(meth := MethodOf(line[..space]), path := target, version := v), true)
        else (req.(meth := MethodOf(line[..space]), path := target[..mark], query := target[mark..], version := v), true)
  {
    hide MethodOf, Find;
  }

  /** Where the parts of a line of that shape are found. */
  lemma PartsOfShape(line: seq<byte>, m: Method, target: seq<byte>, v: Version) returns (space: nat, space2: nat)
    requires RequestLineOf(line, m, target, v)
    ensures space == Find(line, SP, 0) < |line| && space2 == Find(line, SP, space + 1) < |line|
    ensures MethodOf(line[..space]) == m != Invalid && v != Unknown && line[space + 1..space2] == target
    ensures var proto := line[space2 + 1..];
      |proto| == 8 && proto[..7] == VersionPrefix && proto[7] == if v == Http11 then One else Zero
  {
    hide Known, KnownVersion, Find, MethodOf;
    var name, proto :|
      Known(m, name) && 32 !in target && KnownVersion(v, proto) && line == name + [32] + target + [32] + proto;
    MethodsHaveNoSpace(m, name);
    KnownAreProper(m, name, v, proto);
    MethodExactly(m, name);
    VersionExactly(v, proto);
    ThreeParts(name, target, proto);
    space, space2 := |name|, |name| + 1 + |target|;
  }

  /**
   A line of that shape is accepted and sets method, path, query and version; a target without '?'
   leaves the query.
   */
  lemma ShapeAccepted(req: Request, line: seq<byte>, m: Method, target: seq<byte>, v: Version)
    requires RequestLineOf(line, m, target, v)
    ensures var mark := Find(target, 63, 0);
      ProcessRequestLine(req, line) ==
        (req.(meth := m, path := target[..mark], version := v,
              query := if mark == |target| then req.query else target[mark..]), true)
  {
    hide RequestLineOf, Find, MethodOf, ProcessRequestLine;
    var space, space2 := PartsOfShape(line, m, target, v);
    PartsAreRead(req, line, space, space2, v);
    assert target[..|target|] == target;
  }

  lemma KnownAreProper(m: Method, name: seq<byte>, v: Version, proto: seq<byte>)
    requires Known(m, name) && KnownVersion(v, proto)
    ensures m != Invalid && v != Unknown
  {
  }

  /** A request line is accepted if and only if it has that shape. */
  lemma RequestLineExactly(req: Request, line: seq<byte>)
    ensures ProcessRequestLine(req, line).1 <==> exists m, target, v :: RequestLineOf(line, m, target, v)
  {
    hide RequestLineOf, ProcessRequestLine;
    if ProcessRequestLine(req, line).1 {
      var m, target, v := AcceptedShape(req, line);
    } else if m, target, v :| RequestLineOf(line, m, target, v) {
      ShapeAccepted(req, line, m, target, v);
    }
  }

  predicate WhiteSpace(b: byte) {
    b in {9, 10, 11, 12, 13, 32}
  }

  /** A header line splits at its first ':', and its value loses exactly the white space around it. */
  lemma HeaderLineExactly(c: Context, name: seq<byte>, l: seq<byte>, value: seq<byte>, r: seq<byte>)
    requires c.state == ExpectHeaders && 58 !in name && forall b | b in l + r :: WhiteSpace(b)
    requires value != [] ==> !WhiteSpace(value[0]) && !WhiteSpace(value[|value| - 1])
    ensures OneLine(c, name + [58] + (l + value + r))
      == Next(c.(request := c.request.(headers := c.request.headers[name := value])))
  {
    hide Trim;
    var line := name + [58] + (l + value + r);
    FindIs(line, Colon, 0, |name|);
    assert line[..|name|] == name && line[|name| + 1..] == l + value + r;
    TrimIs(l, value, r);
  }

  /** A line ends the headers if and only if it has no ':', empty or not. */
  lemma HeadersEndExactly(c: Context, line: seq<byte>)
    requires c.state == ExpectHeaders
    ensures OneLine(c, line) == Last(c.(state := GotAll)) <==> 58 !in line
    ensures 58 in line ==> OneLine(c, line).Next?
  {
    if 58 !in line {
      FindNone(line, Colon, 0);
    } else {
      var i :| 0 <= i < |line| && line[i] == 58;
      assert Find(line, Colon, 0) <= i;
    }
  }

  lemma {:induction false} TrimLeftIs(l: seq<byte>, s: seq<byte>)
    requires (forall b | b in l :: WhiteSpace(b)) && (s != [] ==> !WhiteSpace(s[0]))
    ensures TrimLeft(l + s) == s
    decreases |l|
  {
    if l == [] {
      assert l + s == s;
    } else {
      assert l[0] in l && (l + s)[1..] == l[1..] + s;
      TrimLeftIs(l[1..], s);
    }
  }

  lemma {:induction false} TrimRightIs(s: seq<byte>, r: seq<byte>)
    requires (forall b | b in r :: WhiteSpace(b)) && (s != [] ==> !WhiteSpace(s[|s| - 1]))
    ensures TrimRight(s + r) == s
    decreases |r|
  {
    if r == [] {
      assert s + r == s;
    } else {
      var n := |r| - 1;
      assert r[n] in r && (s + r)[..|s + r| - 1] == s + r[..n];
      TrimRightIs(s, r[..n]);
    }
  }

  lemma {:induction false} AllTrimmed(s: seq<byte>)
    requires forall b | b in s :: WhiteSpace(b)
    ensures TrimLeft(s) == []
  {
    if s != [] {
      assert s[0] in s;
      AllTrimmed(s[1..]);
    }
  }

  lemma TrimIs(l: seq<byte>, value: seq<byte>, r: seq<byte>)
    requires forall b | b in l + r :: WhiteSpace(b)
    requires value != [] ==> !WhiteSpace(value[0]) && !WhiteSpace(value[|value| - 1])
    ensures Trim(l + value + r) == value
  {
    assert forall b | b in l :: b in l + r;
    assert forall b | b in r :: b in l + r;
    if value == [] {
      assert l + value + r == l + r;
      AllTrimmed(l + r);
    } else {
      assert l + value + r == l + (value + r);
      TrimLeftIs(l, value + r);
      TrimRightIs(value, r);
    }
  }

  // ----- round trip -----

  predicate NoByte(s: seq<byte>, b: byte) {
    forall i | 0 <= i < |s| :: s[i] != b
  }

  predicate GoodField(name: seq<byte>) {
    NoByte(name, CR) && NoByte(name, Colon)
  }

  predicate GoodValue(value: seq<byte>) {
    NoByte(value, CR) && Trimmed(value)
  }

  /** A request line this parser can be asked to read. */
  predicate Renderable(req: Request) {
    && req.meth != Invalid && req.version != Unknown
    && NoByte(req.path, CR) && NoByte(req.path, SP) && NoByte(req.path, Question)
    && NoByte(req.query, CR) && NoByte(req.query, SP)
    && (req.query != [] ==> req.query[0] == Question)
  }

  function LineEnd(): seq<byte> {
    [CR, LF]
  }

  function Proto(v: Version): seq<byte> {
    VersionPrefix + [if v == Http11 then One else Zero]
  }

  function RequestLine(req: Request): seq<byte>
    requires Renderable(req)
  {
    MethodName(req.meth) + [SP] + (req.path + req.query) + [SP] + Proto(req.version)
  }

  function HeaderLine(h: (seq<byte>, seq<byte>)): seq<byte> {
    h.0 + [Colon, SP] + h.1
  }

  function HeaderBlock(hs: seq<(seq<byte>, seq<byte>)>): seq<byte> {
    if hs == [] then LineEnd() else HeaderLine(hs[0]) + LineEnd() + HeaderBlock(hs[1..])
  }

  /** Later headers replace earlier ones of the same name. */
  function WithHeaders(req: Request, hs: seq<(seq<byte>, seq<byte>)>): Request
    decreases hs
  {
    if hs == [] then req else WithHeaders(req.(headers := req.headers[hs[0].0 := hs[0].1]), hs[1..])
  }

  lemma FindIs(s: seq<byte>, b: byte, i: nat, r: nat)
    requires i <= r < |s| && s[r] == b && forall k | i <= k < r :: s[k] != b
    ensures Find(s, b, i) == r
  {
  }

  lemma FindNone(s: seq<byte>, b: byte, i: nat)
    requires i <= |s| && forall k | i <= k < |s| :: s[k] != b
    ensures Find(s, b, i) == |s|
  {
  }

  lemma LineIsFound(line: seq<byte>, more: seq<byte>)
    requires NoByte(line, CR)
    ensures FindCRLF(line + LineEnd() + more, 0) == |line|
  {
    var s := line + LineEnd() + more;
    assert IsCRLF(s, |line|);
    assert forall k | 0 <= k < |line| :: s[k] == line[k];
  }

  lemma MethodNamesArePlain(m: Method)
    requires m != Invalid
    ensures NoByte(MethodName(m), CR) && NoByte(MethodName(m), SP)
  {
  }

  /** Three parts without spaces, joined by spaces, come apart again. */
  lemma ThreeParts(m: seq<byte>, t: seq<byte>, p: seq<byte>)
    requires NoByte(m, SP) && NoByte(t, SP)
    ensures var line := m + [SP] + t + [SP] + p;
      && Find(line, SP, 0) == |m| && line[..|m|] == m
      && Find(line, SP, |m| + 1) == |m| + 1 + |t| < |line| && line[|m| + 1..|m| + 1 + |t|] == t
      && line[|m| + 1 + |t| + 1..] == p
  {
    var line := m + [SP] + t + [SP] + p;
    FindIs(line, SP, 0, |m|);
    assert forall k | |m| + 1 <= k < |m| + 1 + |t| :: line[k] == t[k - |m| - 1];
    FindIs(line, SP, |m| + 1, |m| + 1 + |t|);
  }

  lemma TargetParts(path: seq<byte>, query: seq<byte>)
    requires NoByte(path, Question) && (query != [] ==> query[0] == Question)
    ensures var t := path + query;
      if query == [] then Find(t, Question, 0) == |t| && t == path
      else Find(t, Question, 0) == |path| < |t| && t[..|path|] == path && t[|path|..] == query
  {
    if query == [] {
      FindNone(path + query, Question, 0);
    } else {
      FindIs(path + query, Question, 0, |path|);
    }
  }

  lemma RequestLineIsPlain(req: Request)
    requires Renderable(req)
    ensures NoByte(RequestLine(req), CR)
  {
    MethodNamesArePlain(req.meth);
  }

  /** The request line of a renderable request reads back as its fields. */
  lemma RequestLineRoundTrip(req: Request)
    requires Renderable(req)
    ensures ProcessRequestLine(EmptyRequest, RequestLine(req)) == (req.(headers := map[]), true)
  {
    hide MethodName, MethodOf, NoByte;
    var m, t, p := MethodName(req.meth), req.path + req.query, Proto(req.version);
    MethodNamesArePlain(req.meth);
    MethodRoundTrip(req.meth);
    TargetIsPlain(req.path, req.query);
    ThreeParts(m, t, p);
    TargetParts(req.path, req.query);
    assert p[..7] == VersionPrefix;
  }

  lemma TargetIsPlain(path: seq<byte>, query: seq<byte>)
    requires NoByte(path, SP) && NoByte(query, SP)
    ensures NoByte(path + query, SP)
  {
  }

  lemma MethodRoundTrip(m: Method)
    requires m != Invalid
    ensures MethodOf(MethodName(m)) == m
  {
  }

  lemma HeaderLineRoundTrip(req: Request, h: (seq<byte>, seq<byte>))
    requires GoodField(h.0) && GoodValue(h.1)
    ensures NoByte(HeaderLine(h), CR)
    ensures Find(HeaderLine(h), Colon, 0) == |h.0| < |HeaderLine(h)|
    ensures AddHeader(req, HeaderLine(h), |h.0|) == req.(headers := req.headers[h.0 := h.1])
  {
    var line := HeaderLine(h);
    FindIs(line, Colon, 0, |h.0|);
    assert line[..|h.0|] == h.0;
    assert line[|h.0| + 1..] == [SP] + h.1;
    TrimOfTrimmed(h.1);
  }

  lemma {:induction false} HeadersRoundTrip(req: Request, hs: seq<(seq<byte>, seq<byte>)>, more: seq<byte>)
    requires forall h | h in hs :: GoodField(h.0) && GoodValue(h.1)
    ensures Parse(Context(ExpectHeaders, req), HeaderBlock(hs) + more)
      == Parsed(Context(GotAll, WithHeaders(req, hs)), more, true)
    decreases hs
  {
    hide AddHeader, HeaderLine, Find, FindCRLF, Parse;
    var input := HeaderBlock(hs) + more;
    ParseUnfolds(Context(ExpectHeaders, req), input);
    if hs == [] {
      LineIsFound([], more);
      assert input == [] + LineEnd() + more;
      assert input[..0] == [] && input[2..] == more;
    } else {
      var line := HeaderLine(hs[0]);
      var tail := HeaderBlock(hs[1..]) + more;
      HeaderLineRoundTrip(req, hs[0]);
      LineIsFound(line, tail);
      assert input == line + LineEnd() + tail;
      assert input[..|line|] == line && input[|line| + 2..] == tail;
      HeadersRoundTrip(req.(headers := req.headers[hs[0].0 := hs[0].1]), hs[1..], more);
    }
  }

  /** A rendered request, cut in any way and followed by anything, reads back as itself, leaving what follows. */
  lemma RequestRoundTrip(req: Request, hs: seq<(seq<byte>, seq<byte>)>, more: seq<byte>, chunks: seq<seq<byte>>)
    requires Renderable(req) && req.headers == map[]
    requires forall h | h in hs :: GoodField(h.0) && GoodValue(h.1)
    requires Concat(chunks) == RequestLine(req) + LineEnd() + HeaderBlock(hs) + more
    ensures Feed(Start, [], chunks) == Parsed(Context(GotAll, WithHeaders(req, hs)), more, true)
  {
    hide ProcessRequestLine, RequestLine, HeaderBlock;
    RequestDependsOnBytesOnly(chunks);
    var line, tail := RequestLine(req), HeaderBlock(hs) + more;
    RequestLineRoundTrip(req);
    RequestLineIsPlain(req);
    LineIsFound(line, tail);
    var input := line + LineEnd() + tail;
    assert Concat(chunks) == input;
    assert input[..|line|] == line && input[|line| + 2..] == tail;
    HeadersRoundTrip(req, hs, more);
  }
}

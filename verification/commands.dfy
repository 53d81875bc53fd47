/**
  The serial command channel: bytes are assembled into lines, a line is
  classified by the first keyword it contains, and the two commands that
  carry arguments are parsed:

    CANCELAR_PEDIDO,<receipt>
    PEDIDO_WEB,<restaurant>,<house>,<dish>,<dish>,...

  Restaurant and house numbers are 1-based on the wire and 0-based inside.
 */
module Commands {
  import opened Common

  // ---------------------------------------------------------------------
  // C string helpers
  // ---------------------------------------------------------------------

  /** The C string held in a buffer: everything before the first NUL. */
  function CString(s: seq<char>): (r: string)
    ensures |r| <= |s| && r == s[..|r|]
    ensures '\0' !in r
    ensures '\0' !in s ==> r == s
  {
    if s == [] || s[0] == '\0' then [] else [s[0]] + CString(s[1..])
  }

  /** Characters the cleaning loops drop. */
  predicate IsBlank(c: char) {
    c == ' ' || c == '\r' || c == '\n' || c == '\t'
  }

  /** isspace of the C library. */
  predicate IsSpace(c: char) {
    c == ' ' || c == '\t' || c == '\n' || c == '\U{000B}' || c == '\U{000C}' || c == '\r'
  }

  predicate IsDigit(c: char) {
    '0' <= c <= '9'
  }

  /** The line with every blank removed, the other characters kept in order. */
  function Clean(s: string): (r: string)
    ensures |r| <= |s|
    ensures forall k :: 0 <= k < |r| ==> !IsBlank(r[k])
  {
    if s == [] then []
    else Clean(s[..|s| - 1]) + (if IsBlank(s[|s| - 1]) then [] else [s[|s| - 1]])
  }

  /** A line without blanks is left as it is. */
  lemma {:induction false} CleanKeepsUnblanked(s: string)
    requires forall k :: 0 <= k < |s| ==> !IsBlank(s[k])
    ensures Clean(s) == s
  {
    if s != [] {
      CleanKeepsUnblanked(s[..|s| - 1]);
    }
  }

  /** Cleaning a cleaned line changes nothing. */
  lemma CleanIdempotent(s: string)
    ensures Clean(Clean(s)) == Clean(s)
  {
    CleanKeepsUnblanked(Clean(s));
  }

  /** strchr(s + from, ','): the first comma at or after `from`, not looking past a NUL. */
  function FindComma(s: string, from: nat): (r: Option<nat>)
    ensures r.Some? ==> from <= r.value < |s| && s[r.value] == ','
    decreases |s| - from
  {
    if from >= |s| || s[from] == '\0' then None
    else if s[from] == ',' then Some(from)
    else FindComma(s, from + 1)
  }

  /** End of the run of decimal digits that starts at `i`. */
  function DigitsEnd(s: string, i: nat): (j: nat)
    requires i <= |s|
    ensures i <= j <= |s|
    ensures forall k :: i <= k < j ==> IsDigit(s[k])
    ensures j < |s| ==> !IsDigit(s[j])
    decreases |s| - i
  {
    if i < |s| && IsDigit(s[i]) then DigitsEnd(s, i + 1) else i
  }

  /** Value of the decimal digits s[i..j], most significant first. */
  function DigitsValue(s: string, i: nat, j: nat): (v: int)
    requires i <= j <= |s| && forall k :: i <= k < j ==> IsDigit(s[k])
    ensures v >= 0
    decreases j - i
  {
    if i == j then 0
    else
      assert IsDigit(s[j - 1]);
      DigitsValue(s, i, j - 1) * 10 + (s[j - 1] as int - '0' as int)
  }

  /**
    atoi(s + i): leading white space skipped, an optional sign, then as many
    digits as follow; 0 when there are none.
   */
  function Atoi(s: string, i: nat): int
    requires i <= |s|
    decreases |s| - i
  {
    if i < |s| && IsSpace(s[i]) then Atoi(s, i + 1)
    else if i < |s| && s[i] == '-' then -DigitsValue(s, i + 1, DigitsEnd(s, i + 1))
    else if i < |s| && s[i] == '+' then DigitsValue(s, i + 1, DigitsEnd(s, i + 1))
    else DigitsValue(s, i, DigitsEnd(s, i))
  }

  // ---------------------------------------------------------------------
  // Decimal rendering read back
  // ---------------------------------------------------------------------

  /** `w` is written in `s` from position `at` on. */
  predicate MatchAt(s: string, at: nat, w: string) {
    at + |w| <= |s| && forall k :: 0 <= k < |w| ==> s[at + k] == w[k]
  }

  /** The digits of a rendered number have that number as their value. */
  lemma {:induction false} RenderedValue(s: string, at: nat, n: nat)
    requires MatchAt(s, at, NatToString(n))
    ensures forall k :: at <= k < at + |NatToString(n)| ==> IsDigit(s[k])
    ensures DigitsValue(s, at, at + |NatToString(n)|) == n
    decreases n
  {
    var d := NatToString(n);
    var j := at + |d|;
    assert forall k :: at <= k < j ==> s[k] == d[k - at];
    if n >= 10 {
      var e := NatToString(n / 10);
      assert d == e + [DigitChar(n % 10)];
      assert forall k :: 0 <= k < |e| ==> e[k] == d[k];
      RenderedValue(s, at, n / 10);
      assert s[j - 1] == DigitChar(n % 10);
    }
  }

  /** The run of digits that starts at a rendered number ends where the rendering does. */
  lemma {:induction false} DigitsEndAt(s: string, i: nat, j: nat)
    requires i <= j <= |s| && forall k :: i <= k < j ==> IsDigit(s[k])
    requires j == |s| || !IsDigit(s[j])
    ensures DigitsEnd(s, i) == j
    decreases j - i
  {
    if i < j {
      DigitsEndAt(s, i + 1, j);
    }
  }

  /** atoi reads back the decimal rendering of a natural number, up to the next non-digit. */
  lemma AtoiOfRendering(s: string, at: nat, n: nat)
    requires MatchAt(s, at, NatToString(n))
    requires at + |NatToString(n)| == |s| || !IsDigit(s[at + |NatToString(n)|])
    ensures Atoi(s, at) == n
  {
    var j := at + |NatToString(n)|;
    RenderedValue(s, at, n);
    DigitsEndAt(s, at, j);
    assert IsDigit(s[at]);
  }

  /** Decimal renderings of distinct numbers are distinct. */
  lemma NatToStringInjective(a: nat, b: nat)
    requires NatToString(a) == NatToString(b)
    ensures a == b
  {
    var d := NatToString(a);
    RenderedValue(d, 0, a);
    RenderedValue(d, 0, b);
  }

  // ---------------------------------------------------------------------
  // Receipts
  // ---------------------------------------------------------------------

  /** The receipt number of the n-th order created: "PED-<n>". */
  function Receipt(n: nat): (r: string)
    ensures |r| >= 5 && r[..4] == "PED-"
  {
    "PED-" + NatToString(n)
  }

  /** Receipts identify orders: two counters give the same receipt only if they are equal. */
  lemma ReceiptInjective(a: nat, b: nat)
    requires Receipt(a) == Receipt(b)
    ensures a == b
  {
    assert Receipt(a)[4..] == NatToString(a);
    assert Receipt(b)[4..] == NatToString(b);
    NatToStringInjective(a, b);
  }

  // ---------------------------------------------------------------------
  // Line assembly (StartTaskRx)
  // ---------------------------------------------------------------------

  /** The receive buffer holds 256 characters, the last reserved for the terminator. */
  const LINE_CAPACITY: int := 256

  predicate IsTerminator(c: char) {
    c == '\n' || c == '\r'
  }

  class LineAssembler {
    const buf: array<char>
    var len: int

    ghost predicate Valid()
      reads this, buf
    {
      buf.Length == LINE_CAPACITY && 0 <= len < LINE_CAPACITY
      && forall k :: 0 <= k < len ==> !IsTerminator(buf[k])
    }

    /** Characters received since the last line ended. */
    function Pending(): seq<char>
      reads this, buf
      requires Valid()
    {
      buf[..len]
    }

    constructor()
      ensures Valid() && Pending() == [] && fresh(buf)
    {
      buf := new char[LINE_CAPACITY];
      len := 0;
    }

    /**
      One received character. A line terminator ends the pending line, which
      is handed on (as the C string it holds) unless it is empty; other
      characters are appended while there is room and dropped after that.
     */
    method Feed(ch: char) returns (line: Option<string>)
      requires Valid()
      modifies this, buf
      ensures Valid()
      ensures IsTerminator(ch) ==> Pending() == []
      ensures IsTerminator(ch) ==>
                line == (if CString(old(Pending())) == [] then None else Some(CString(old(Pending()))))
      ensures !IsTerminator(ch) ==> line == None
      ensures !IsTerminator(ch) && old(len) < LINE_CAPACITY - 1 ==> Pending() == old(Pending()) + [ch]
      ensures !IsTerminator(ch) && old(len) == LINE_CAPACITY - 1 ==> Pending() == old(Pending())
      ensures line.Some? ==> 0 < |line.value| < LINE_CAPACITY && '\0' !in line.value
                             && forall k :: 0 <= k < |line.value| ==> !IsTerminator(line.value[k])
    {
      if IsTerminator(ch) {
        var s := CString(buf[..len]);
        len := 0;
        if |s| > 0 {
          line := Some(s);
        } else {
          line := None;
        }
      } else {
        line := None;
        if len < LINE_CAPACITY - 1 {
          buf[len] := ch;
          len := len + 1;
        }
      }
    }
  }

  // ---------------------------------------------------------------------
  // Keyword dispatch
  // ---------------------------------------------------------------------

  /** strstr(s, p) != NULL */
  predicate Contains(s: string, p: string)
    decreases |s|
  {
    |p| <= |s| && (s[..|p|] == p || (s != [] && Contains(s[1..], p)))
  }

  datatype Command =
    | Start | Stop | ShowMap | Regenerate | Stats | Metrics
    | CancelOrder | WebOrder | RandomOrder | Info | Help | Unknown

  /** Keywords in the order the dispatcher tries them, with the command each selects. */
  const Keywords: seq<string> :=
    ["START", "STOP", "MAP", "REGEN", "STATS", "METRICS",
     "CANCELAR_PEDIDO", "PEDIDO_WEB", "PEDIDO", "INFO", "HELP"]

  const KeywordCommands: seq<Command> :=
    [Start, Stop, ShowMap, Regenerate, Stats, Metrics,
     CancelOrder, WebOrder, RandomOrder, Info, Help]

  /** Index of the first keyword, from `i` on, that the line contains; |Keywords| if none. */
  function FirstKeyword(line: string, i: nat): (k: nat)
    requires i <= |Keywords|
    ensures i <= k <= |Keywords|
    ensures k < |Keywords| ==> Contains(line, Keywords[k])
    ensures forall j :: i <= j < k ==> !Contains(line, Keywords[j])
    decreases |Keywords| - i
  {
    if i == |Keywords| then i
    else if Contains(line, Keywords[i]) then i
    else FirstKeyword(line, i + 1)
  }

  /** The command a received line selects: the first keyword in dispatch order that occurs in it. */
  function Classify(line: string): (c: Command)
    ensures c == Unknown <==> forall j :: 0 <= j < |Keywords| ==> !Contains(line, Keywords[j])
    ensures c != Unknown ==> exists k :: 0 <= k < |Keywords| && c == KeywordCommands[k]
                                         && Contains(line, Keywords[k])
                                         && forall j :: 0 <= j < k ==> !Contains(line, Keywords[j])
  {
    var k := FirstKeyword(line, 0);
    if k == |Keywords| then Unknown else KeywordCommands[k]
  }

  lemma ContainsPrefix(s: string, p: string)
    requires |p| <= |s| && s[..|p|] == p
    ensures Contains(s, p)
  {
  }

  /**
    "PEDIDO_WEB" also contains "PEDIDO": a web order line is dispatched as a
    web order, never as a request for a random order, because its keyword
    is tried first.
   */
  lemma WebOrderBeforeRandomOrder(args: string)
    ensures Contains("PEDIDO_WEB," + args, "PEDIDO")
    ensures Classify("PEDIDO_WEB," + args) != RandomOrder
  {
    var line := "PEDIDO_WEB," + args;
    assert line[..6] == "PEDIDO";
    assert line[..10] == "PEDIDO_WEB";
    ContainsPrefix(line, "PEDIDO_WEB");
    var k := FirstKeyword(line, 0);
    assert k <= 7;
  }

  /** A pattern with a character the line lacks does not occur in the line. */
  lemma {:induction false} AbsentCharNotContained(s: string, p: string, i: nat)
    requires i < |p| && p[i] !in s
    ensures !Contains(s, p)
    decreases |s|
  {
    if |p| <= |s| {
      assert s[..|p|][i] == s[i];
      if s != [] {
        assert forall k :: 0 <= k < |s| - 1 ==> s[1..][k] == s[k + 1];
        AbsentCharNotContained(s[1..], p, i);
      }
    }
  }

  /** Digits and commas only, as in the arguments the dashboard sends. */
  predicate Numeric(s: string) {
    forall k :: 0 <= k < |s| ==> IsDigit(s[k]) || s[k] == ','
  }

  lemma NumericConcat(a: string, b: string)
    requires Numeric(a) && Numeric(b)
    ensures Numeric(a + b)
  {
    assert forall k :: |a| <= k < |a + b| ==> (a + b)[k] == b[k - |a|];
  }

  /** A line made of `head` and numeric arguments lacks every letter `head` lacks. */
  lemma LacksLetter(head: string, tail: string, c: char)
    requires Numeric(tail) && !IsDigit(c) && c != ',' && c !in head
    ensures c !in head + tail
  {
  }

  /**
    The line `head + tail` selects the command of keyword `kw` when `head`
    starts with that keyword and every earlier keyword has a letter
    missing from `head` that digits and commas cannot supply.
   */
  lemma DispatchTo(head: string, tail: string, kw: nat, missing: seq<nat>)
    requires kw < |Keywords| && |missing| == kw && Numeric(tail)
    requires |Keywords[kw]| <= |head| && head[..|Keywords[kw]|] == Keywords[kw]
    requires forall j :: 0 <= j < kw ==> missing[j] < |Keywords[j]|
    requires forall j :: 0 <= j < kw ==> !IsDigit(Keywords[j][missing[j]]) && Keywords[j][missing[j]] != ','
                                         && Keywords[j][missing[j]] !in head
    ensures Classify(head + tail) == KeywordCommands[kw]
  {
    var line := head + tail;
    assert line[..|Keywords[kw]|] == Keywords[kw];
    ContainsPrefix(line, Keywords[kw]);
    forall j | 0 <= j < kw
      ensures !Contains(line, Keywords[j])
    {
      LacksLetter(head, tail, Keywords[j][missing[j]]);
      AbsentCharNotContained(line, Keywords[j], missing[j]);
    }
    var k := FirstKeyword(line, 0);
    assert k == kw;
  }

  /** Every web order line whose arguments are digits and commas is dispatched as a web order. */
  lemma WebOrderDispatch(tail: string)
    requires Numeric(tail)
    ensures Classify("PEDIDO_WEB," + tail) == WebOrder
  {
    // START, STOP, MAP, REGEN, STATS, METRICS and CANCELAR_PEDIDO lack S, S, M, G, S, M and C.
    DispatchTo("PEDIDO_WEB,", tail, 7, [0, 0, 0, 2, 0, 0, 0]);
  }

  /** A cancel line carrying a receipt number is dispatched as a cancellation. */
  lemma CancelDispatch(n: nat)
    ensures Classify(CancelCommand(Receipt(n))) == CancelOrder
  {
    assert CancelCommand(Receipt(n)) == "CANCELAR_PEDIDO,PED-" + NatToString(n);
    DispatchTo("CANCELAR_PEDIDO,PED-", NatToString(n), 6, [0, 0, 0, 2, 0, 0]);
  }

  // ---------------------------------------------------------------------
  // Argument parsing
  // ---------------------------------------------------------------------

  datatype ParseError = NoComma | MissingHouse | MissingDishes | EmptyReceipt

  /** A web order as received: 0-based restaurant and house, and up to MAX_PLATILLOS dish ids. */
  datatype WebOrderRequest = WebOrderRequest(restId: int, houseId: int, dishes: seq<int>)

  /**
    The cleaning loop shared by both parsers: copies the line into the
    256-character `cleanLine` buffer, skipping blanks.
   */
  method CleanLine(line: string) returns (clean: string)
    requires |line| < LINE_CAPACITY
    ensures clean == Clean(line)
  {
    var buffer := new char[LINE_CAPACITY];
    var n := 0;
    for i := 0 to |line|
      invariant 0 <= n <= i
      invariant buffer[..n] == Clean(line[..i])
    {
      assert line[..i + 1][..i] == line[..i];
      if !IsBlank(line[i]) {
        buffer[n] := line[i];
        n := n + 1;
      }
    }
    assert line[..|line|] == line;
    clean := buffer[..n];
  }

  function Min(a: int, b: int): int {
    if a <= b then a else b
  }

  /**
    CANCELAR_PEDIDO: the receipt is what follows the first comma, up to the
    end of the string and at most RECEIPT_CAPACITY characters.
   */
  function CancelArgument(clean: string): (r: Result<string, ParseError>)
    ensures r.Ok? ==> 0 < |r.value| <= RECEIPT_CAPACITY && '\0' !in r.value
  {
    match FindComma(clean, 0)
    case None => Err(NoComma)
    case Some(c) =>
      var tail := CString(clean[c + 1..]);
      var receipt := tail[..Min(RECEIPT_CAPACITY, |tail|)];
      if receipt == [] then Err(EmptyReceipt) else Ok(receipt)
  }

  /** CANCELAR_PEDIDO over the cleaned line. */
  method ParseCancel(clean: string) returns (r: Result<string, ParseError>)
    ensures r == CancelArgument(clean)
  {
    var comma := FindComma(clean, 0);
    if comma.None? {
      return Err(NoComma);
    }
    var receipt := CopyReceipt(clean[comma.value + 1..]);
    if |receipt| == 0 {
      return Err(EmptyReceipt);
    }
    return Ok(receipt);
  }

  /** The copy loop: characters up to the end of the C string, at most RECEIPT_CAPACITY of them. */
  method CopyReceipt(s: string) returns (receipt: string)
    ensures receipt == CString(s)[..Min(RECEIPT_CAPACITY, |CString(s)|)]
  {
    var buffer := new char[RECEIPT_CAPACITY + 1];
    var idx := 0;
    while idx < |s| && s[idx] != '\0' && idx < RECEIPT_CAPACITY
      invariant 0 <= idx <= RECEIPT_CAPACITY && idx <= |s|
      invariant buffer[..idx] == s[..idx]
      invariant forall k :: 0 <= k < idx ==> s[k] != '\0'
    {
      buffer[idx] := s[idx];
      idx := idx + 1;
    }
    CStringLength(s, idx);
    if idx < RECEIPT_CAPACITY {
      CStringEnds(s, idx);
    }
    receipt := buffer[..idx];
  }

  lemma {:induction false} CStringLength(s: seq<char>, i: nat)
    requires i <= |s| && forall k :: 0 <= k < i ==> s[k] != '\0'
    ensures |CString(s)| >= i
  {
    if i > 0 {
      assert s[0] != '\0';
      assert forall k :: 0 <= k < i - 1 ==> s[1..][k] == s[k + 1];
      CStringLength(s[1..], i - 1);
    }
  }

  lemma {:induction false} CStringEnds(s: seq<char>, i: nat)
    requires i <= |s| && (i == |s| || s[i] == '\0')
    requires forall k :: 0 <= k < i ==> s[k] != '\0'
    ensures |CString(s)| == i
  {
    if i > 0 {
      assert s[0] != '\0';
      assert forall k :: 0 <= k < i - 1 ==> s[1..][k] == s[k + 1];
      CStringEnds(s[1..], i - 1);
    }
  }

  /**
    The dish loop: an id is read at each position while the string goes on
    and fewer than `budget` more ids may be read; the next id starts after
    the next comma, and a missing comma ends the list. `acc` holds the ids
    read so far.
   */
  function DishList(s: string, from: nat, acc: seq<int>, budget: nat): (ds: seq<int>)
    ensures |ds| <= |acc| + budget
    decreases |s| - from
  {
    if budget == 0 || from >= |s| || s[from] == '\0' then acc
    else
      var next := FindComma(s, from);
      if next.None? then acc + [Atoi(s, from)]
      else DishList(s, next.value + 1, acc + [Atoi(s, from)], budget - 1)
  }

  /** The dish ids read from position `from` of `s` into the MAX_PLATILLOS-slot buffer. */
  function Dishes(s: string, from: nat): (ds: seq<int>)
    ensures |ds| <= MAX_PLATILLOS
  {
    DishList(s, from, [], MAX_PLATILLOS)
  }

  /**
    PEDIDO_WEB over the cleaned line: restaurant after the first comma,
    house after the second, dishes after the third. Range checks are the
    caller's.
   */
  function WebOrderArguments(clean: string): (r: Result<WebOrderRequest, ParseError>)
    ensures r.Ok? ==> |r.value.dishes| <= MAX_PLATILLOS
  {
    var c1 := FindComma(clean, 0);
    if c1.None? then Err(NoComma)
    else
      var c2 := FindComma(clean, c1.value + 1);
      if c2.None? then Err(MissingHouse)
      else
        var c3 := FindComma(clean, c2.value + 1);
        if c3.None? then Err(MissingDishes)
        else Ok(WebOrderFrom(clean, c1.value, c2.value, c3.value))
  }

  /** The fields that follow the three commas at `c1`, `c2` and `c3`. */
  function WebOrderFrom(clean: string, c1: nat, c2: nat, c3: nat): (w: WebOrderRequest)
    requires c1 < |clean| && c2 < |clean| && c3 < |clean|
    ensures |w.dishes| <= MAX_PLATILLOS
  {
    WebOrderRequest(Atoi(clean, c1 + 1) - 1, Atoi(clean, c2 + 1) - 1, Dishes(clean, c3 + 1))
  }

  /**
    The strchr walk of PEDIDO_WEB. The two numbers are read once all three
    commas are known to be there, which changes nothing since reading them
    has no effect.
   */
  method ParseWebOrder(clean: string) returns (r: Result<WebOrderRequest, ParseError>)
    ensures r == WebOrderArguments(clean)
  {
    var c1 := FindComma(clean, 0);
    if c1.None? {
      return Err(NoComma);
    }
    var c2 := FindComma(clean, c1.value + 1);
    if c2.None? {
      return Err(MissingHouse);
    }
    var c3 := FindComma(clean, c2.value + 1);
    if c3.None? {
      return Err(MissingDishes);
    }
    var restId := Atoi(clean, c1.value + 1) - 1;
    var houseId := Atoi(clean, c2.value + 1) - 1;
    var dishes := ReadDishes(clean, c3.value + 1);
    return Ok(WebOrderRequest(restId, houseId, dishes));
  }

  /** The dish loop from position `from` (just after the third comma), filling the MAX_PLATILLOS-slot `platillos` buffer. */
  method ReadDishes(p: string, from: nat) returns (ds: seq<int>)
    ensures ds == Dishes(p, from)
  {
    var dishes := new int[MAX_PLATILLOS];
    var count := 0;
    var i := from;
    while i < |p| && p[i] != '\0' && count < MAX_PLATILLOS
      invariant 0 <= count <= MAX_PLATILLOS
      invariant DishList(p, i, dishes[..count], MAX_PLATILLOS - count) == Dishes(p, from)
      decreases |p| - i
    {
      var d := Atoi(p, i);
      var next := FindComma(p, i);
      ghost var before := dishes[..count];
      dishes[count] := d;
      count := count + 1;
      assert dishes[..count] == before + [d];
      if next.None? {
        return dishes[..count];
      }
      i := next.value + 1;
    }
    ds := dishes[..count];
  }

  // ---------------------------------------------------------------------
  // Round trips with the dashboard's command format
  // ---------------------------------------------------------------------

  /** No blanks and no NUL: such a string comes through cleaning and C-string reading intact. */
  predicate Bare(s: string) {
    forall k :: 0 <= k < |s| ==> !IsBlank(s[k]) && s[k] != '\0'
  }

  lemma BareConcat(a: string, b: string)
    requires Bare(a) && Bare(b)
    ensures Bare(a + b)
  {
    assert forall k :: |a| <= k < |a + b| ==> (a + b)[k] == b[k - |a|];
  }

  /** The dish ids joined with commas, as the dashboard sends them. */
  function JoinIds(ids: seq<nat>): string
    requires ids != []
  {
    if |ids| == 1 then NatToString(ids[0]) else NatToString(ids[0]) + "," + JoinIds(ids[1..])
  }

  lemma {:induction false} JoinIdsNumeric(ids: seq<nat>)
    requires ids != []
    ensures Numeric(JoinIds(ids))
    decreases |ids|
  {
    if |ids| > 1 {
      JoinIdsNumeric(ids[1..]);
      NumericConcat(NatToString(ids[0]), ",");
      NumericConcat(NatToString(ids[0]) + ",", JoinIds(ids[1..]));
    }
  }

  lemma NumericBare(s: string)
    requires Numeric(s)
    ensures Bare(s)
  {
  }

  lemma {:induction false} FindCommaSkips(s: string, from: nat, to: nat)
    requires from <= to < |s| && s[to] == ','
    requires forall k :: from <= k < to ==> s[k] != ',' && s[k] != '\0'
    ensures FindComma(s, from) == Some(to)
    decreases |s| - from
  {
    if from < to {
      FindCommaSkips(s, from + 1, to);
    }
  }

  lemma {:induction false} FindCommaNone(s: string, from: nat)
    requires forall k :: from <= k < |s| ==> s[k] != ','
    ensures FindComma(s, from) == None
    decreases |s| - from
  {
    if from < |s| && s[from] != '\0' {
      FindCommaNone(s, from + 1);
    }
  }

  /** The comma right after a keyword (or a number) free of commas and NULs is the one found. */
  lemma CommaAfter(s: string, at: nat, word: string)
    requires ',' !in word && '\0' !in word
    requires MatchAt(s, at, word) && at + |word| < |s| && s[at + |word|] == ','
    ensures FindComma(s, at) == Some(at + |word|)
  {
    assert forall k :: at <= k < at + |word| ==> s[k] == word[k - at];
    FindCommaSkips(s, at, at + |word|);
  }

  /** The decimal rendering contains no comma and no NUL. */
  lemma RenderingIsWord(n: nat)
    ensures ',' !in NatToString(n) && '\0' !in NatToString(n)
  {
  }

  /** A number rendered at `at` and followed by a comma is read back, and that comma is the next one. */
  lemma NumberBeforeComma(s: string, at: nat, n: nat)
    requires MatchAt(s, at, NatToString(n)) && at + |NatToString(n)| < |s|
    requires s[at + |NatToString(n)|] == ','
    ensures Atoi(s, at) == n
    ensures FindComma(s, at) == Some(at + |NatToString(n)|)
  {
    RenderingIsWord(n);
    AtoiOfRendering(s, at, n);
    CommaAfter(s, at, NatToString(n));
  }

  /** A number rendered at the very end of `s` is read back, and no comma follows it. */
  lemma NumberAtEnd(s: string, at: nat, n: nat)
    requires MatchAt(s, at, NatToString(n)) && at + |NatToString(n)| == |s|
    ensures Atoi(s, at) == n
    ensures FindComma(s, at) == None
  {
    var d := NatToString(n);
    RenderingIsWord(n);
    AtoiOfRendering(s, at, n);
    assert forall k :: at <= k < |s| ==> s[k] == d[k - at];
    FindCommaNone(s, at);
  }

  /** A rendered id starts with a digit, so the dish loop does not stop in front of it. */
  lemma RenderingStarts(s: string, at: nat, n: nat)
    requires MatchAt(s, at, NatToString(n))
    ensures at < |s| && s[at] != '\0'
  {
    assert s[at + 0] == NatToString(n)[0];
  }

  /**
    The ids `ids` rendered from `at` to the end of `s`, one level at a time:
    the first id, then either the end or a comma and the others.
   */
  predicate Renders(s: string, at: nat, ids: seq<nat>)
    decreases |ids|
  {
    ids != [] &&
    var d := NatToString(ids[0]);
    MatchAt(s, at, d) &&
    if |ids| == 1 then at + |d| == |s|
    else at + |d| < |s| && s[at + |d|] == ',' && Renders(s, at + |d| + 1, ids[1..])
  }

  /** Where the rendering of several ids sits, the first id is followed by a comma and the others. */
  lemma JoinIdsHead(s: string, at: nat, ids: seq<nat>)
    requires |ids| > 1 && MatchAt(s, at, JoinIds(ids)) && at + |JoinIds(ids)| == |s|
    ensures var d := NatToString(ids[0]);
            MatchAt(s, at, d) && s[at + |d|] == ','
            && MatchAt(s, at + |d| + 1, JoinIds(ids[1..])) && at + |d| + 1 + |JoinIds(ids[1..])| == |s|
  {
    var d, r := NatToString(ids[0]), JoinIds(ids[1..]);
    var j := JoinIds(ids);
    assert j == d + "," + r;
    assert j[|d|] == ',';
    forall k | 0 <= k < |d| ensures s[at + k] == d[k] {
      assert j[k] == d[k];
    }
    forall k | 0 <= k < |r| ensures s[at + |d| + 1 + k] == r[k] {
      assert j[|d| + 1 + k] == r[k];
    }
  }

  /** The comma-joined rendering of the ids is such a rendering. */
  lemma {:induction false} JoinIdsRenders(s: string, at: nat, ids: seq<nat>)
    requires ids != [] && MatchAt(s, at, JoinIds(ids)) && at + |JoinIds(ids)| == |s|
    ensures Renders(s, at, ids)
    decreases |ids|
  {
    if |ids| > 1 {
      JoinIdsHead(s, at, ids);
      JoinIdsRenders(s, at + |NatToString(ids[0])| + 1, ids[1..]);
    }
  }

  /** One turn of the dish loop in front of an id followed by a comma. */
  lemma DishListStep(s: string, at: nat, n: int, next: nat, acc: seq<int>, budget: nat)
    requires budget > 0 && at < |s| && s[at] != '\0'
    requires FindComma(s, at) == Some(next) && Atoi(s, at) == n
    ensures DishList(s, at, acc, budget) == DishList(s, next + 1, acc + [n], budget - 1)
  {
  }

  /** The last turn of the dish loop, in front of an id with no comma after it. */
  lemma DishListLast(s: string, at: nat, n: int, acc: seq<int>, budget: nat)
    requires budget > 0 && at < |s| && s[at] != '\0'
    requires FindComma(s, at) == None && Atoi(s, at) == n
    ensures DishList(s, at, acc, budget) == acc + [n]
  {
  }

  lemma AppendHead(acc: seq<int>, ids: seq<nat>)
    requires ids != []
    ensures (acc + [ids[0] as int]) + ids[1..] == acc + ids
  {
    assert ids == [ids[0]] + ids[1..];
  }

  /** The dish loop in front of the rendering of a single id reads that id and stops. */
  lemma DishListOne(s: string, at: nat, ids: seq<nat>, acc: seq<int>, budget: nat)
    requires |ids| == 1 && budget > 0 && Renders(s, at, ids)
    ensures DishList(s, at, acc, budget) == acc + ids
  {
    var n := ids[0];
    RenderingStarts(s, at, n);
    NumberAtEnd(s, at, n);
    DishListLast(s, at, n, acc, budget);
    assert ids == [n];
  }

  /** The dish loop in front of the rendering of several ids reads the first and moves past its comma. */
  lemma DishListFirst(s: string, at: nat, ids: seq<nat>, acc: seq<int>, budget: nat)
    requires |ids| > 1 && budget > 0 && Renders(s, at, ids)
    ensures var next := at + |NatToString(ids[0])| + 1;
            Renders(s, next, ids[1..])
            && DishList(s, at, acc, budget) == DishList(s, next, acc + [ids[0] as int], budget - 1)
  {
    var n := ids[0];
    RenderingStarts(s, at, n);
    NumberBeforeComma(s, at, n);
    DishListStep(s, at, n, at + |NatToString(n)|, acc, budget);
  }

  /** Reading the dish list back from its rendering recovers the ids, up to `budget` of them. */
  lemma {:induction false} DishListOfRendering(s: string, at: nat, ids: seq<nat>, acc: seq<int>, budget: nat)
    requires |ids| <= budget && Renders(s, at, ids)
    ensures DishList(s, at, acc, budget) == acc + ids
    decreases |ids|
  {
    if |ids| == 1 {
      DishListOne(s, at, ids, acc, budget);
    } else {
      DishListFirst(s, at, ids, acc, budget);
      DishListOfRendering(s, at + |NatToString(ids[0])| + 1, ids[1..], acc + [ids[0] as int], budget - 1);
      AppendHead(acc, ids);
    }
  }

  /** The dish list read back from a rendering of at most MAX_PLATILLOS ids that ends the line. */
  lemma DishesOfJoin(s: string, at: nat, ids: seq<nat>)
    requires ids != [] && |ids| <= MAX_PLATILLOS
    requires MatchAt(s, at, JoinIds(ids)) && at + |JoinIds(ids)| == |s|
    ensures Dishes(s, at) == ids
  {
    JoinIdsRenders(s, at, ids);
    DishListOfRendering(s, at, ids, [], MAX_PLATILLOS);
    assert [] + ids == ids;
  }

  /** When the three commas are where they are, the arguments are the fields after them. */
  lemma WebOrderFields(clean: string, c1: nat, c2: nat, c3: nat)
    requires FindComma(clean, 0) == Some(c1)
    requires FindComma(clean, c1 + 1) == Some(c2)
    requires FindComma(clean, c2 + 1) == Some(c3)
    ensures WebOrderArguments(clean) == Ok(WebOrderFrom(clean, c1, c2, c3))
  {
  }

  /** Fields separated by commas, the way the dashboard writes a command. */
  function Joined(fields: seq<string>): string
    requires fields != []
  {
    if |fields| == 1 then fields[0] else fields[0] + "," + Joined(fields[1..])
  }

  lemma JoinedFour(a: string, b: string, c: string, d: string)
    ensures Joined([a, b, c, d]) == a + "," + b + "," + c + "," + d
  {
    assert [a, b, c, d][1..] == [b, c, d];
    assert [b, c, d][1..] == [c, d];
    assert [c, d][1..] == [d];
    assert Joined([c, d]) == c + "," + d;
    assert Joined([b, c, d]) == b + "," + (c + "," + d);
  }

  /** A web order line: keyword, restaurant, house and dish ids. */
  function WebLine(kw: string, rest: nat, house: nat, dishes: seq<nat>): string
    requires dishes != []
  {
    Joined([kw, NatToString(rest), NatToString(house), JoinIds(dishes)])
  }

  /** Where the fields and commas of four joined fields are. */
  lemma JoinedLayout(a: string, b: string, c: string, d: string)
    ensures var s := a + "," + b + "," + c + "," + d;
            var c1 := |a|;
            var c2 := c1 + 1 + |b|;
            var c3 := c2 + 1 + |c|;
            c3 + 1 + |d| == |s|
            && MatchAt(s, 0, a) && s[c1] == ','
            && MatchAt(s, c1 + 1, b) && s[c2] == ','
            && MatchAt(s, c2 + 1, c) && s[c3] == ','
            && MatchAt(s, c3 + 1, d)
  {
    var s := a + "," + b + "," + c + "," + d;
    var c1 := |a|;
    var c2 := c1 + 1 + |b|;
    var c3 := c2 + 1 + |c|;
    assert forall k :: 0 <= k < |a| ==> s[k] == a[k];
    assert forall k :: 0 <= k < |b| ==> s[c1 + 1 + k] == b[k];
    assert forall k :: 0 <= k < |c| ==> s[c2 + 1 + k] == c[k];
    assert forall k :: 0 <= k < |d| ==> s[c3 + 1 + k] == d[k];
  }

  /** Where the fields and commas of a web order line are. */
  lemma WebLineLayout(kw: string, rest: nat, house: nat, dishes: seq<nat>)
    requires dishes != []
    ensures var s := WebLine(kw, rest, house, dishes);
            var c1 := |kw|;
            var c2 := c1 + 1 + |NatToString(rest)|;
            var c3 := c2 + 1 + |NatToString(house)|;
            c3 + 1 + |JoinIds(dishes)| == |s|
            && MatchAt(s, 0, kw) && s[c1] == ','
            && MatchAt(s, c1 + 1, NatToString(rest)) && s[c2] == ','
            && MatchAt(s, c2 + 1, NatToString(house)) && s[c3] == ','
            && MatchAt(s, c3 + 1, JoinIds(dishes))
  {
    JoinedFour(kw, NatToString(rest), NatToString(house), JoinIds(dishes));
    JoinedLayout(kw, NatToString(rest), NatToString(house), JoinIds(dishes));
  }

  /** With the numbers and the dish ids where they are, the fields are the numbers less one and the ids. */
  lemma WebFieldsRead(s: string, c1: nat, c2: nat, c3: nat, rest: nat, house: nat, dishes: seq<nat>)
    requires c1 < |s| && c2 < |s| && c3 < |s| && Dishes(s, c3 + 1) == dishes
    requires Atoi(s, c1 + 1) == rest && Atoi(s, c2 + 1) == house
    ensures WebOrderFrom(s, c1, c2, c3) == WebOrderRequest(rest - 1, house - 1, dishes)
  {
  }

  /**
    The three arguments of a web order behind any keyword free of commas and
    NULs are read back: the two numbers less one, and the dish ids.
   */
  lemma WebArgumentsRoundTrip(kw: string, rest: nat, house: nat, dishes: seq<nat>)
    requires ',' !in kw && '\0' !in kw
    requires dishes != [] && |dishes| <= MAX_PLATILLOS
    ensures WebOrderArguments(WebLine(kw, rest, house, dishes)) == Ok(WebOrderRequest(rest - 1, house - 1, dishes))
  {
    var s := WebLine(kw, rest, house, dishes);
    var c1 := |kw|;
    var c2 := c1 + 1 + |NatToString(rest)|;
    var c3 := c2 + 1 + |NatToString(house)|;
    WebLineLayout(kw, rest, house, dishes);
    CommaAfter(s, 0, kw);
    NumberBeforeComma(s, c1 + 1, rest);
    NumberBeforeComma(s, c2 + 1, house);
    DishesOfJoin(s, c3 + 1, dishes);
    WebFieldsRead(s, c1, c2, c3, rest, house, dishes);
    WebOrderFields(s, c1, c2, c3);
  }

  /** The command the dashboard sends for a web order. */
  function WebOrderCommand(rest: nat, house: nat, dishes: seq<nat>): string
    requires dishes != []
  {
    WebLine("PEDIDO_WEB", rest, house, dishes)
  }

  /** The web order command is the keyword and a comma followed by numbers and commas only. */
  lemma WebOrderCommandShape(rest: nat, house: nat, dishes: seq<nat>) returns (tail: string)
    requires dishes != []
    ensures WebOrderCommand(rest, house, dishes) == "PEDIDO_WEB," + tail && Numeric(tail)
  {
    var r, h, j := NatToString(rest), NatToString(house), JoinIds(dishes);
    JoinedFour("PEDIDO_WEB", r, h, j);
    tail := r + "," + h + "," + j;
    assert "PEDIDO_WEB" + "," + r + "," + h + "," + j == "PEDIDO_WEB," + tail;
    JoinIdsNumeric(dishes);
    NumericConcat(r, ",");
    NumericConcat(r + ",", h);
    NumericConcat(r + "," + h, ",");
    NumericConcat(r + "," + h + ",", j);
  }

  /** The web order command is dispatched as a web order. */
  lemma WebOrderDispatched(rest: nat, house: nat, dishes: seq<nat>)
    requires dishes != []
    ensures Classify(WebOrderCommand(rest, house, dishes)) == WebOrder
  {
    var tail := WebOrderCommandShape(rest, house, dishes);
    WebOrderDispatch(tail);
  }

  /** The web order command comes through cleaning intact. */
  lemma WebOrderClean(rest: nat, house: nat, dishes: seq<nat>)
    requires dishes != []
    ensures Clean(WebOrderCommand(rest, house, dishes)) == WebOrderCommand(rest, house, dishes)
  {
    var tail := WebOrderCommandShape(rest, house, dishes);
    NumericBare(tail);
    assert Bare("PEDIDO_WEB,");
    BareConcat("PEDIDO_WEB,", tail);
    CleanKeepsUnblanked(WebOrderCommand(rest, house, dishes));
  }

  /**
    The dashboard's web order command is dispatched as a web order, and
    cleaning and parsing it give back the 0-based restaurant and house and
    the dish ids, whenever there are at most MAX_PLATILLOS dishes.
   */
  lemma WebOrderRoundTrip(rest: nat, house: nat, dishes: seq<nat>)
    requires dishes != [] && |dishes| <= MAX_PLATILLOS
    ensures Classify(WebOrderCommand(rest, house, dishes)) == WebOrder
    ensures WebOrderArguments(Clean(WebOrderCommand(rest, house, dishes)))
            == Ok(WebOrderRequest(rest - 1, house - 1, dishes))
  {
    WebOrderDispatched(rest, house, dishes);
    WebOrderClean(rest, house, dishes);
    WebArgumentsRoundTrip("PEDIDO_WEB", rest, house, dishes);
  }

  /** The command the dashboard sends to cancel an order. */
  function CancelCommand(receipt: string): string {
    "CANCELAR_PEDIDO," + receipt
  }

  /** A cancel command carrying a receipt without blanks comes through cleaning intact. */
  lemma CancelClean(receipt: string)
    requires Bare(receipt)
    ensures Clean(CancelCommand(receipt)) == CancelCommand(receipt)
  {
    assert Bare("CANCELAR_PEDIDO,");
    BareConcat("CANCELAR_PEDIDO,", receipt);
    CleanKeepsUnblanked(CancelCommand(receipt));
  }

  /** The receipt is read back from the cancel command when it fits and has no NUL. */
  lemma CancelArgumentOf(receipt: string)
    requires 0 < |receipt| <= RECEIPT_CAPACITY && '\0' !in receipt
    ensures CancelArgument(CancelCommand(receipt)) == Ok(receipt)
  {
    var s := CancelCommand(receipt);
    assert forall k :: 0 <= k < 15 ==> s[k] == "CANCELAR_PEDIDO"[k];
    assert s[15] == ',';
    CommaAfter(s, 0, "CANCELAR_PEDIDO");
    assert s[16..] == receipt;
  }

  /** A receipt of up to RECEIPT_CAPACITY characters without blanks or NUL comes back from a cancel command. */
  lemma CancelRoundTrip(receipt: string)
    requires 0 < |receipt| <= RECEIPT_CAPACITY && Bare(receipt)
    ensures CancelArgument(Clean(CancelCommand(receipt))) == Ok(receipt)
  {
    CancelClean(receipt);
    CancelArgumentOf(receipt);
  }
}

/**
 `RegistryClient::BearerAuth` (src/docker/docker.cc): the parser of a Bearer challenge, section 3 of RFC 6750.
 */
module BearerAuth {
  import opened Basics
  import opened Strings

  const AUTH_TYPE: string := "bearer"
  const SPACES: set<char> := {' ', '\t', '\n', '\r', 11 as char, 12 as char}

  type Params = map<string, string>

  datatype Auth = Auth(realm: string, service: string, scope: string)

  // ---------------------------------------------------------------------------
  // The parser
  // ---------------------------------------------------------------------------

  /** The positions of one parameter: `=`, the opening and the closing quote. */
  datatype Place = Place(eq: nat, open: nat, close: nat)

  predicate OnlySpaces(s: string) {
    forall c | c in s :: c == ' '
  }

  /** Where the parameter is that starts at `begin`, if it is well formed; `eq` is the next `=`. */
  function ParamAt(s: string, begin: nat, eq: nat): (r: Option<Place>)
    requires FindChar(s, '=', begin) == Some(eq)
    ensures r.Some? ==> begin <= r.value.eq < r.value.open < r.value.close < |s| && r.value.eq == eq
  {
    var open := FindChar(s, '"', begin);
    if open.None? || eq > open.value || !OnlySpaces(s[eq + 1..open.value]) then None
    else
      var close := FindChar(s, '"', open.value + 1);
      if close.None? then None else Some(Place(eq, open.value, close.value))
  }

  /** One round of reading: no parameter is left, one is malformed, or one was read, as it stands in the text, and
      possibly more follow. */
  datatype Round = NoneLeft | Bad | Read(key: string, text: string, next: Option<nat>)

  /** What is read with a well-formed parameter. */
  function Taken(s: string, begin: nat, p: Place): (r: Round)
    requires begin <= p.eq < p.open < p.close < |s|
    ensures r.Read? && (r.next.Some? ==> begin < r.next.value <= |s|)
  {
    var comma := FindChar(s, ',', p.close);
    Read(s[begin..p.eq], s[p.open + 1..p.close], if comma.None? then None else Some(comma.value + 1))
  }

  function ReadOne(s: string, begin: nat): (r: Round)
    ensures r.Read? && r.next.Some? ==> begin < r.next.value <= |s|
  {
    var eq := FindChar(s, '=', begin);
    if eq.None? then NoneLeft
    else
      var p := ParamAt(s, begin, eq.value);
      if p.None? then Bad else Taken(s, begin, p.value)
  }

  function WithParam(round: Round, params: Params): Params
    requires round.Read?
  {
    params[Trim(round.key, SPACES) := Trim(round.text, SPACES)]
  }

  /** The parameters from `begin` on, added to `params`; `None` if one is malformed. */
  function ParseParams(s: string, begin: nat, params: Params): Option<Params>
    decreases |s| - begin
  {
    var round := ReadOne(s, begin);
    if round.NoneLeft? then Some(params)
    else if round.Bad? then None
    else if round.next.None? then Some(WithParam(round, params))
    else ParseParams(s, round.next.value, WithParam(round, params))
  }

  method HasOnlySpaces(s: string) returns (r: bool)
    ensures r <==> OnlySpaces(s)
  {
    for i := 0 to |s|
      invariant forall j | 0 <= j < i :: s[j] == ' '
    {
      if s[i] != ' ' {
        assert s[i] in s;
        return false;
      }
    }
    return true;
  }

  /** One round of the loop. */
  method ReadRound(s: string, begin: nat) returns (r: Round)
    ensures r == ReadOne(s, begin)
  {
    var eq := FindChar(s, '=', begin);
    if eq.None? {
      return NoneLeft;
    }
    var open := FindChar(s, '"', begin);
    if open.None? {
      return Bad;
    }
    if eq.value > open.value {
      return Bad;
    }
    var spaces := HasOnlySpaces(s[eq.value + 1..open.value]);
    if !spaces {
      return Bad;
    }
    var close := FindChar(s, '"', open.value + 1);
    if close.None? {
      return Bad;
    }
    var comma := FindChar(s, ',', close.value);
    return Read(s[begin..eq.value], s[open.value + 1..close.value],
                if comma.None? then None else Some(comma.value + 1));
  }

  /** The loop; every round moves on to a later position. */
  method ReadParams(s: string) returns (r: Option<Params>)
    ensures r == ParseParams(s, 0, map[])
  {
    var params: Params := map[];
    var begin := 0;
    var round := ReadRound(s, begin);
    while round.Read?
      invariant round == ReadOne(s, begin)
      invariant ParseParams(s, 0, map[]) == ParseParams(s, begin, params)
      decreases |s| - begin
    {
      params := WithParam(round, params);
      if round.next.None? {
        return Some(params);
      }
      begin := round.next.value;
      round := ReadRound(s, begin);
    }
    return if round.Bad? then None else Some(params);
  }

  function AuthOf(params: Params): Option<Auth> {
    if "realm" in params && "service" in params && "scope" in params
    then Some(Auth(params["realm"], params["service"], params["scope"])) else None
  }

  /** What follows the last `bearer` of the header, trimmed. */
  function Challenge(header: string): Option<string> {
    if !OccursAt(header, AUTH_TYPE, 0) then None
    else
      var pos := FindLast(header, AUTH_TYPE, |header|);
      if pos.Some? then Some(Trim(header[pos.value + |AUTH_TYPE|..], SPACES)) else None
  }

  /** The realm, service and scope of a header; `None` if it is refused. */
  function ParseHeader(header: string): Option<Auth> {
    var challenge := Challenge(header);
    if challenge.None? then None
    else
      var params := ParseParams(challenge.value, 0, map[]);
      if params.None? then None else AuthOf(params.value)
  }

  /** The constructor. */
  method Parse(header: string) returns (r: Option<Auth>)
    ensures r == ParseHeader(header)
  {
    var challenge := Challenge(header);
    if challenge.None? {
      return None;
    }
    var params := ReadParams(challenge.value);
    return if params.None? then None else AuthOf(params.value);
  }

  // ---------------------------------------------------------------------------
  // Round trip
  // ---------------------------------------------------------------------------

  /** A parameter as it may be written: blanks around the name, before the opening quote and after the closing one. */
  datatype Param = Param(lead: string, name: string, trail: string, gap: string, value: string, after: string)

  predicate Blank(s: string) {
    forall c | c in s :: c in SPACES
  }

  predicate Writable(p: Param) {
    && Blank(p.lead) && Blank(p.trail) && OnlySpaces(p.gap) && Blank(p.after)
    && p.name != "" && Trimmed(p.name, SPACES) && '=' !in p.name && '"' !in p.name
    && Trimmed(p.value, SPACES) && '"' !in p.value
  }

  function Label(p: Param): string {
    p.lead + p.name + p.trail
  }

  function Print(p: Param): string {
    Label(p) + "=" + p.gap + "\"" + p.value + "\"" + p.after
  }

  function PrintAll(ps: seq<Param>): string {
    if ps == [] then "" else if |ps| == 1 then Print(ps[0]) else Print(ps[0]) + "," + PrintAll(ps[1..])
  }

  /** What the list says; of equal names the last counts. */
  function Meaning(ps: seq<Param>, params: Params): Params {
    if ps == [] then params else Meaning(ps[1..], params[ps[0].name := ps[0].value])
  }

  lemma TrimPadded(lead: string, s: string, end: string)
    requires Blank(lead) && s != "" && Trimmed(s, SPACES) && Blank(end)
    ensures Trim(lead + s + end, SPACES) == s
  {
    assert lead + s + end == lead + (s + end);
    TrimLeftBlanks(lead, s + end, SPACES);
    assert TrimLeft(s + end, SPACES) == s + end;
    TrimRightBlanks(s, end, SPACES);
  }

  /** The parser finds a parameter whose parts are where they should be. */
  lemma ParamPlace(s: string, begin: nat, p: Place)
    requires begin <= p.eq < p.open < p.close < |s|
    requires s[p.eq] == '=' && s[p.open] == '"' && s[p.close] == '"'
    requires Without(s[begin..p.eq], '=') && Without(s[begin..p.eq], '"')
    requires OnlySpaces(s[p.eq + 1..p.open]) && Without(s[p.open + 1..p.close], '"')
    ensures FindChar(s, '=', begin) == Some(p.eq) && ParamAt(s, begin, p.eq) == Some(p)
  {
    forall i | begin <= i < p.eq ensures s[i] != '=' && s[i] != '"' {
      assert s[i] == s[begin..p.eq][i - begin];
    }
    forall i | p.eq < i < p.open ensures s[i] != '"' {
      assert s[i] == s[p.eq + 1..p.open][i - p.eq - 1];
      assert s[i] in s[p.eq + 1..p.open];
    }
    forall i | p.open < i < p.close ensures s[i] != '"' {
      assert s[i] == s[p.open + 1..p.close][i - p.open - 1];
    }
    FindCharFirst(s, '=', begin, p.eq);
    FindCharFirst(s, '"', begin, p.open);
    FindCharFirst(s, '"', p.open + 1, p.close);
  }

  lemma BlankIsClean(s: string)
    requires Blank(s)
    ensures Without(s, '=') && Without(s, '"') && Without(s, ',')
  {
    forall i | 0 <= i < |s| ensures s[i] != '=' && s[i] != '"' && s[i] != ',' {
      assert s[i] in s;
    }
  }

  lemma LabelIsClean(p: Param)
    requires Writable(p)
    ensures Without(Label(p), '=') && Without(Label(p), '"') && Without(p.value, '"')
  {
    BlankIsClean(p.lead);
    BlankIsClean(p.trail);
    forall i | 0 <= i < |p.name| ensures p.name[i] != '=' && p.name[i] != '"' {
      assert p.name[i] in p.name;
    }
  }

  lemma PartsTrim(p: Param)
    requires Writable(p)
    ensures Trim(Label(p), SPACES) == p.name && Trim(p.value, SPACES) == p.value
  {
    TrimPadded(p.lead, p.name, p.trail);
    if p.value != "" {
      assert "" + p.value + "" == p.value;
      TrimPadded("", p.value, "");
    }
  }

  function PlaceOf(begin: nat, p: Param): Place {
    var eq := begin + |Label(p)|;
    Place(eq, eq + 1 + |p.gap|, eq + 2 + |p.gap| + |p.value|)
  }

  /** The parts of a parameter are between `begin` and `end`. */
  predicate LaidOut(s: string, begin: nat, p: Param, end: nat) {
    var q := PlaceOf(begin, p);
    && q.close < end <= |s|
    && s[begin..q.eq] == Label(p) && s[q.eq] == '='
    && s[q.eq + 1..q.open] == p.gap && s[q.open] == '"'
    && s[q.open + 1..q.close] == p.value && s[q.close] == '"'
    && s[q.close + 1..end] == p.after
  }

  /** A text that starts with a printed parameter. */
  lemma Layout(s: string, p: Param, rest: string)
    requires s == Print(p) + rest
    ensures LaidOut(s, 0, p, |Print(p)|) && s[|Print(p)|..] == rest
  {
  }

  /** The comma after a written parameter is the next one, whatever its value contains. */
  lemma NextComma(s: string, close: nat, end: nat)
    requires close < end <= |s| && s[close] == '"' && Without(s[close + 1..end], ',')
    requires end < |s| ==> s[end] == ','
    ensures FindChar(s, ',', close) == if end == |s| then None else Some(end)
  {
    forall i | close < i < end ensures s[i] != ',' {
      assert s[i] == s[close + 1..end][i - close - 1];
    }
    if end < |s| {
      FindCharFirst(s, ',', close, end);
    } else {
      FindCharNone(s, ',', close);
    }
  }

  /** One written parameter is read, and reading goes on after its comma. */
  lemma ParseStep(s: string, begin: nat, p: Param, end: nat)
    requires Writable(p) && LaidOut(s, begin, p, end) && (end < |s| ==> s[end] == ',')
    ensures ReadOne(s, begin) == Read(Label(p), p.value, if end == |s| then None else Some(end + 1))
  {
    var place := PlaceOf(begin, p);
    LabelIsClean(p);
    BlankIsClean(p.after);
    ParamPlace(s, begin, place);
    NextComma(s, place.close, end);
  }

  predicate AllWritable(ps: seq<Param>) {
    ps != [] ==> Writable(ps[0]) && AllWritable(ps[1..])
  }

  // Reading starts anew after a comma: only the rest `t` of the text counts.

  lemma {:induction false} FindCharShift(s: string, k: nat, t: string, c: char, from: nat)
    requires k <= |s| && t == s[k..]
    ensures FindChar(s, c, k + from) == var r := FindChar(t, c, from); if r.None? then None else Some(k + r.value)
    decreases |s| - from
  {
    if from < |t| {
      assert t[from] == s[k + from];
      if t[from] != c {
        FindCharShift(s, k, t, c, from + 1);
      }
    }
  }

  function Moved(p: Place, k: nat): Place {
    Place(k + p.eq, k + p.open, k + p.close)
  }

  lemma ParamShift(s: string, k: nat, t: string, begin: nat, eq: nat)
    requires k <= |s| && t == s[k..] && FindChar(t, '=', begin) == Some(eq) && FindChar(s, '=', k + begin) == Some(k + eq)
    ensures ParamAt(s, k + begin, k + eq) ==
            var p := ParamAt(t, begin, eq); if p.None? then None else Some(Moved(p.value, k))
  {
    FindCharShift(s, k, t, '"', begin);
    var open := FindChar(t, '"', begin);
    if open.Some? && eq <= open.value {
      assert s[k + eq + 1..k + open.value] == t[eq + 1..open.value];
      FindCharShift(s, k, t, '"', open.value + 1);
    }
  }

  function MovedRound(r: Round, k: nat): Round {
    if r.Read? && r.next.Some? then r.(next := Some(k + r.next.value)) else r
  }

  lemma TakenShift(s: string, k: nat, t: string, begin: nat, p: Place)
    requires k <= |s| && t == s[k..] && begin <= p.eq < p.open < p.close < |t|
    ensures Taken(s, k + begin, Moved(p, k)) == MovedRound(Taken(t, begin, p), k)
  {
    assert s[k + begin..k + p.eq] == t[begin..p.eq];
    assert s[k + p.open + 1..k + p.close] == t[p.open + 1..p.close];
    FindCharShift(s, k, t, ',', p.close);
  }

  lemma ReadTaken(s: string, begin: nat, eq: nat)
    requires FindChar(s, '=', begin) == Some(eq)
    ensures ReadOne(s, begin) ==
            if ParamAt(s, begin, eq).None? then Bad else Taken(s, begin, ParamAt(s, begin, eq).value)
  {
  }

  lemma ReadShift(s: string, k: nat, t: string, begin: nat)
    requires k <= |s| && t == s[k..]
    ensures ReadOne(s, k + begin) == MovedRound(ReadOne(t, begin), k)
  {
    FindCharShift(s, k, t, '=', begin);
    var eq := FindChar(t, '=', begin);
    if eq.Some? {
      ReadTaken(s, k + begin, k + eq.value);
      ReadTaken(t, begin, eq.value);
      ParamShift(s, k, t, begin, eq.value);
      var p := ParamAt(t, begin, eq.value);
      if p.Some? {
        TakenShift(s, k, t, begin, p.value);
      }
    }
  }

  lemma {:induction false} ParseShift(s: string, k: nat, t: string, begin: nat, params: Params)
    requires k <= |s| && t == s[k..]
    ensures ParseParams(s, k + begin, params) == ParseParams(t, begin, params)
    decreases |s| - begin
  {
    var round := ReadOne(t, begin);
    ReadShift(s, k, t, begin);
    if round.Read? && round.next.Some? {
      ParseShift(s, k, t, round.next.value, WithParam(round, params));
    }
  }

  /** What follows a printed parameter. */
  lemma AfterPrinted(s: string, p: Param, others: string)
    requires s == Print(p) + ("," + others)
    ensures var end := |Print(p)|;
            LaidOut(s, 0, p, end) && end < |s| && s[end] == ',' && s[end + 1..] == others
  {
    Layout(s, p, "," + others);
    var end := |Print(p)|;
    assert s[end..][0] == ',' && s[end + 1..] == s[end..][1..];
  }

  lemma ParseOnly(s: string, p: Param, params: Params)
    requires Writable(p) && s == Print(p)
    ensures ParseParams(s, 0, params) == Some(params[p.name := p.value])
  {
    assert s == Print(p) + "";
    Layout(s, p, "");
    ParseStep(s, 0, p, |s|);
    PartsTrim(p);
  }

  lemma ParseNext(s: string, key: string, text: string, next: nat, params: Params)
    requires ReadOne(s, 0) == Read(key, text, Some(next))
    ensures next <= |s|
    ensures ParseParams(s, 0, params) == ParseParams(s[next..], 0, params[Trim(key, SPACES) := Trim(text, SPACES)])
  {
    ParseShift(s, next, s[next..], 0, params[Trim(key, SPACES) := Trim(text, SPACES)]);
  }

  lemma ParseThen(s: string, p: Param, end: nat, params: Params)
    requires Writable(p) && LaidOut(s, 0, p, end) && end < |s| && s[end] == ','
    ensures ParseParams(s, 0, params) == ParseParams(s[end + 1..], 0, params[p.name := p.value])
  {
    ParseStep(s, 0, p, end);
    ParseNext(s, Label(p), p.value, end + 1, params);
    PartsTrim(p);
  }

  lemma ParseFirst(s: string, p: Param, others: string, params: Params)
    requires Writable(p) && s == Print(p) + ("," + others)
    ensures ParseParams(s, 0, params) == ParseParams(others, 0, params[p.name := p.value])
  {
    AfterPrinted(s, p, others);
    ParseThen(s, p, |Print(p)|, params);
  }

  lemma {:induction false} ParseFrom(s: string, ps: seq<Param>, params: Params)
    requires ps != [] && AllWritable(ps) && s == PrintAll(ps)
    ensures ParseParams(s, 0, params) == Some(Meaning(ps, params))
    decreases |ps|
  {
    var next := params[ps[0].name := ps[0].value];
    if |ps| == 1 {
      ParseOnly(s, ps[0], params);
      assert Meaning(ps[1..], next) == next;
    } else {
      var others := PrintAll(ps[1..]);
      assert s == Print(ps[0]) + ("," + others);
      ParseFirst(s, ps[0], others, params);
      ParseFrom(others, ps[1..], next);
    }
  }

  /** Parsing what was printed gives back every parameter: commas and `=` inside quotes do no harm. */
  lemma ParamsRoundTrip(ps: seq<Param>)
    requires ps != [] && AllWritable(ps)
    ensures ParseParams(PrintAll(ps), 0, map[]) == Some(Meaning(ps, map[]))
  {
    ParseFrom(PrintAll(ps), ps, map[]);
  }

  lemma {:induction false} PrintedEnds(ps: seq<Param>)
    requires ps != [] && AllWritable(ps) && ps[|ps| - 1].after == ""
    ensures PrintAll(ps) != "" && PrintAll(ps)[|PrintAll(ps)| - 1] == '"'
    decreases |ps|
  {
    if |ps| > 1 {
      PrintedEnds(ps[1..]);
    }
  }

  lemma ChallengeOf(header: string, pad: string, body: string, end: string)
    requires Blank(pad) && Blank(end) && body != "" && Trimmed(body, SPACES)
    requires header == AUTH_TYPE + pad + body + end
    requires forall i | 0 < i < |header| :: !OccursAt(header, AUTH_TYPE, i)
    ensures Challenge(header) == Some(body)
  {
    assert header[..|AUTH_TYPE|] == AUTH_TYPE;
    assert OccursAt(header, AUTH_TYPE, 0);
    FindLastAt(header, AUTH_TYPE, |header|, 0);
    assert header[|AUTH_TYPE|..] == pad + body + end;
    TrimPadded(pad, body, end);
  }

  lemma PrintedIsTrimmed(ps: seq<Param>, body: string)
    requires ps != [] && AllWritable(ps) && ps[0].lead == "" && ps[|ps| - 1].after == "" && body == PrintAll(ps)
    ensures body != "" && Trimmed(body, SPACES)
  {
    PrintedEnds(ps);
    PrintedStarts(ps);
  }

  /** The whole header: prefix, blanks, and a list that has no `bearer` in it. */
  lemma HeaderRoundTrip(header: string, pad: string, ps: seq<Param>, body: string, end: string)
    requires ps != [] && AllWritable(ps) && ps[0].lead == "" && ps[|ps| - 1].after == "" && body == PrintAll(ps)
    requires Blank(pad) && Blank(end) && header == AUTH_TYPE + pad + body + end
    requires forall i | 0 < i < |header| :: !OccursAt(header, AUTH_TYPE, i)
    ensures Challenge(header) == Some(body) && ParseParams(body, 0, map[]) == Some(Meaning(ps, map[]))
  {
    PrintedIsTrimmed(ps, body);
    ChallengeOf(header, pad, body, end);
    ParamsRoundTrip(ps);
  }

  lemma PrintedStarts(ps: seq<Param>)
    requires ps != [] && Writable(ps[0]) && ps[0].lead == ""
    ensures PrintAll(ps) != "" && PrintAll(ps)[0] !in SPACES
  {
    assert PrintAll(ps)[0] == Print(ps[0])[0] == ps[0].name[0];
  }

  lemma {:induction false} MeaningHolds(ps: seq<Param>, params: Params, i: nat)
    requires i < |ps| && forall j | i < j < |ps| :: ps[j].name != ps[i].name
    ensures ps[i].name in Meaning(ps, params) && Meaning(ps, params)[ps[i].name] == ps[i].value
    decreases |ps|
  {
    if i > 0 {
      MeaningHolds(ps[1..], params[ps[0].name := ps[0].value], i - 1);
    } else {
      MeaningKeeps(ps[1..], params[ps[0].name := ps[0].value], ps[0].name);
    }
  }

  lemma {:induction false} MeaningKeeps(ps: seq<Param>, params: Params, name: string)
    requires name in params && forall j | 0 <= j < |ps| :: ps[j].name != name
    ensures name in Meaning(ps, params) && Meaning(ps, params)[name] == params[name]
    decreases |ps|
  {
    if ps != [] {
      MeaningKeeps(ps[1..], params[ps[0].name := ps[0].value], name);
    }
  }

  /** The last parameter of the list with a name. */
  predicate LastNamed(ps: seq<Param>, i: nat, name: string) {
    i < |ps| && ps[i].name == name && forall j | i < j < |ps| :: ps[j].name != name
  }

  lemma MandatoryParams(ps: seq<Param>, realm: nat, service: nat, scope: nat)
    requires LastNamed(ps, realm, "realm") && LastNamed(ps, service, "service") && LastNamed(ps, scope, "scope")
    ensures AuthOf(Meaning(ps, map[])) == Some(Auth(ps[realm].value, ps[service].value, ps[scope].value))
  {
    MeaningHolds(ps, map[], realm);
    MeaningHolds(ps, map[], service);
    MeaningHolds(ps, map[], scope);
  }

  /** Parsing a printed header gives back realm, service and scope. */
  lemma AuthRoundTrip(header: string, pad: string, ps: seq<Param>, body: string, end: string, realm: nat, service: nat,
                      scope: nat)
    requires ps != [] && AllWritable(ps) && ps[0].lead == "" && ps[|ps| - 1].after == "" && body == PrintAll(ps)
    requires Blank(pad) && Blank(end) && header == AUTH_TYPE + pad + body + end
    requires forall i | 0 < i < |header| :: !OccursAt(header, AUTH_TYPE, i)
    requires LastNamed(ps, realm, "realm") && LastNamed(ps, service, "service") && LastNamed(ps, scope, "scope")
    ensures ParseHeader(header) == Some(Auth(ps[realm].value, ps[service].value, ps[scope].value))
  {
    HeaderRoundTrip(header, pad, ps, body, end);
    MandatoryParams(ps, realm, service, scope);
  }

  // ---------------------------------------------------------------------------
  // The prefix is looked up from the end
  // ---------------------------------------------------------------------------

  lemma {:induction false} TrimRightLength(s: string, end: string)
    requires Blank(end)
    ensures |TrimRight(s + end, SPACES)| <= |s|
    decreases |s| + |end|
  {
    if end != "" {
      assert end[|end| - 1] in end;
      assert (s + end)[..|s + end| - 1] == s + end[..|end| - 1];
      TrimRightLength(s, end[..|end| - 1]);
    } else if s != "" {
      assert s + end == s;
      assert s[..|s| - 1] + "" == s[..|s| - 1];
      TrimRightLength(s[..|s| - 1], "");
    }
  }

  lemma {:induction false} TrimLength(s: string, end: string)
    requires Blank(end)
    ensures |Trim(s + end, SPACES)| <= |s|
    decreases |s|
  {
    if s != "" && s[0] in SPACES {
      assert (s + end)[1..] == s[1..] + end;
      TrimLength(s[1..], end);
    } else if s != "" {
      assert TrimLeft(s + end, SPACES) == s + end;
      TrimRightLength(s, end);
    } else {
      assert s + end == end && end + "" == end;
      TrimLeftBlanks(end, "", SPACES);
    }
  }

  lemma {:induction false} LastIsLater(s: string, word: string, to: nat, i: nat)
    requires i < to && OccursAt(s, word, i)
    ensures FindLast(s, word, to).Some? && FindLast(s, word, to).value >= i
    ensures OccursAt(s, word, FindLast(s, word, to).value)
  {
    if i < to - 1 && !OccursAt(s, word, to - 1) {
      LastIsLater(s, word, to - 1, i);
    }
  }

  predicate InBody(pad: string, body: string, k: nat) {
    |AUTH_TYPE| + |pad| <= k < |AUTH_TYPE| + |pad| + |body|
  }

  lemma OutsideBody(header: string, pad: string, body: string, end: string, k: nat)
    requires Blank(pad) && Blank(end) && header == AUTH_TYPE + pad + body + end
    requires 0 < k < |header| && !InBody(pad, body, k)
    ensures header[k] != 'b'
  {
    if k < |AUTH_TYPE| {
      assert header[k] == AUTH_TYPE[k];
    } else if k < |AUTH_TYPE| + |pad| {
      assert header[k] in pad;
    } else {
      assert header[k] in end;
    }
  }

  /** A second occurrence of the prefix starts in the body. */
  lemma SecondBearer(header: string, pad: string, body: string, end: string, k: nat)
    requires Blank(pad) && Blank(end) && header == AUTH_TYPE + pad + body + end
    requires k > 0 && OccursAt(header, AUTH_TYPE, k)
    ensures InBody(pad, body, k)
  {
    forall j | 0 < j < |header| && !InBody(pad, body, j) ensures header[j] != 'b' {
      OutsideBody(header, pad, body, end, j);
    }
    assert header[k] == header[k..k + |AUTH_TYPE|][0];
  }

  /** So the challenge is what follows the prefix exactly if the prefix does not occur again. */
  lemma ChallengeIff(header: string, pad: string, body: string, end: string)
    requires Blank(pad) && Blank(end) && body != "" && Trimmed(body, SPACES)
    requires header == AUTH_TYPE + pad + body + end
    ensures Challenge(header) == Some(body) <==> forall i | 0 < i < |header| :: !OccursAt(header, AUTH_TYPE, i)
  {
    if i :| 0 < i < |header| && OccursAt(header, AUTH_TYPE, i) {
      LastIsLater(header, AUTH_TYPE, |header|, i);
      var k := FindLast(header, AUTH_TYPE, |header|).value;
      SecondBearer(header, pad, body, end, k);
      var from := k - |pad|;
      assert header[k + |AUTH_TYPE|..] == (body + end)[from..];
      if from <= |body| {
        assert (body + end)[from..] == body[from..] + end;
        TrimLength(body[from..], end);
      } else {
        assert (body + end)[from..] == "" + end[from - |body|..];
        TrimLength("", end[from - |body|..]);
      }
    } else {
      ChallengeOf(header, pad, body, end);
    }
  }
}

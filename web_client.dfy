/**
 * The argument validation of the curl-like client: each `--headers` value
 * is split into a name and a value and collected into a map, and the
 * `--method` value is mapped onto one of five request methods. Either
 * step can end the program early with an error message, before anything
 * is sent.
 */
module WebClient {
  import opened Wrappers
  import opened RustStr

  /** The request methods the client accepts: GET, POST, PUT and DELETE
      (section 9.3 of RFC 9110) and PATCH (RFC 5789). */
  datatype HttpMethod = Get | Post | Put | Delete | Patch

  /** A method's name, in upper case. */
  function Token(m: HttpMethod): string {
    match m
    case Get => "GET"
    case Post => "POST"
    case Put => "PUT"
    case Delete => "DELETE"
    case Patch => "PATCH"
  }

  /** Distinct methods have distinct names. */
  lemma TokenInjective(m: HttpMethod, n: HttpMethod)
    ensures Token(m) == Token(n) ==> m == n
  {
  }

  /** The method whose upper-case name is exactly `u`, if any (the `match` arms). */
  function MatchToken(u: string): (r: Option<HttpMethod>)
    ensures forall m :: r == Some(m) <==> u == Token(m)
  {
    if u == "GET" then Some(Get)
    else if u == "POST" then Some(Post)
    else if u == "PUT" then Some(Put)
    else if u == "DELETE" then Some(Delete)
    else if u == "PATCH" then Some(Patch)
    else None
  }

  /**
   * The method named by `s`, ignoring case: `s` is accepted exactly when
   * its upper-case form is one of the five names, and then maps to the
   * method of that name.
   */
  function ParseMethod(s: string): (r: Option<HttpMethod>)
    ensures forall m :: r == Some(m) <==> ToUpper(s) == Token(m)
  {
    MatchToken(ToUpper(s))
  }

  /** Whether ASCII `s` spells `word` in any mixture of cases. */
  predicate SpellsIgnoringCase(s: string, word: string) {
    && |s| == |word|
    && (forall k :: 0 <= k < |s| ==> IsAscii(s[k]))
    && (forall k :: 0 <= k < |s| ==> AsciiUpper(s[k]) == word[k])
  }

  /** Any ASCII casing of a method's name is accepted as that method. */
  lemma ParseMethodIgnoresCase(s: string, m: HttpMethod)
    requires SpellsIgnoringCase(s, Token(m))
    ensures ParseMethod(s) == Some(m)
  {
    assert ToUpper(s) == Token(m);
  }

  /** An ASCII string is rejected exactly when it spells none of the five names in any casing. */
  lemma ParseMethodRejects(s: string)
    requires forall k :: 0 <= k < |s| ==> IsAscii(s[k])
    ensures ParseMethod(s).None? <==> forall m :: !SpellsIgnoringCase(s, Token(m))
  {
    forall m | SpellsIgnoringCase(s, Token(m))
      ensures ParseMethod(s) == Some(m)
    {
      ParseMethodIgnoresCase(s, m);
    }
    if ParseMethod(s).Some? {
      var m := ParseMethod(s).value;
      assert ToUpper(s) == Token(m);
      assert SpellsIgnoringCase(s, Token(m));
    }
  }

  /** Concrete cases: lower case and mixed case are accepted. */
  lemma ParseMethodAcceptsExamples()
    ensures ParseMethod("get") == Some(Get)
    ensures ParseMethod("Patch") == Some(Patch)
    ensures ParseMethod("dElEtE") == Some(Delete)
  {
    ParseMethodIgnoresCase("get", Get);
    ParseMethodIgnoresCase("Patch", Patch);
    ParseMethodIgnoresCase("dElEtE", Delete);
  }

  /** Concrete cases: a name outside the five, and the empty string, are rejected. */
  lemma ParseMethodRejectsExamples()
    ensures ParseMethod("head") == None
    ensures ParseMethod("") == None
  {
    var u := ToUpper("head");
    assert |u| == 4 && u[0] == 'H';
    assert forall m :: u != Token(m);
  }

  // ---------------------------------------------------------------------
  // Headers

  /**
   * The parts of `h` before and after its first colon (a split into at most
   * two pieces), or `None` when `h` has no colon. The first part holds no colon; the
   * second holds everything after the first colon, further colons included.
   */
  function SplitAtFirstColon(h: string): (r: Option<(string, string)>)
    ensures r.Some? <==> ':' in h
    ensures r.Some? ==> ':' !in r.value.0 && h == r.value.0 + ":" + r.value.1
  {
    if h == [] then None
    else if h[0] == ':' then Some(([], h[1..]))
    else
      match SplitAtFirstColon(h[1..])
      case None => None
      case Some((k, v)) => Some(([h[0]] + k, v))
  }

  /** The split is determined by its two properties: any colon-free prefix followed by a colon is it. */
  lemma {:induction false} SplitAtFirstColonUnique(h: string, k: string, v: string)
    requires ':' !in k && h == k + ":" + v
    ensures SplitAtFirstColon(h) == Some((k, v))
    decreases |k|
  {
    if k == [] {
      assert h[1..] == v;
    } else {
      assert h[0] == k[0];
      assert h[1..] == k[1..] + ":" + v;
      SplitAtFirstColonUnique(h[1..], k[1..], v);
      assert [h[0]] + k[1..] == k;
    }
  }

  /** A header argument the client accepts: one with a colon. */
  predicate WellFormed(h: string) {
    ':' in h
  }

  /** The trimmed name of a well-formed header. */
  function Key(h: string): string
    requires WellFormed(h)
  {
    Trim(SplitAtFirstColon(h).value.0)
  }

  /** The trimmed value of a well-formed header. */
  function Value(h: string): string
    requires WellFormed(h)
  {
    Trim(SplitAtFirstColon(h).value.1)
  }

  predicate AllWellFormed(hs: seq<string>) {
    forall i :: 0 <= i < |hs| ==> WellFormed(hs[i])
  }

  /** Each header's trimmed name and value, in order. */
  function FieldLines(hs: seq<string>): (ps: seq<(string, string)>)
    requires AllWellFormed(hs)
    ensures |ps| == |hs|
    decreases |hs|
  {
    if hs == [] then []
    else FieldLines(hs[..|hs| - 1]) + [(Key(hs[|hs| - 1]), Value(hs[|hs| - 1]))]
  }

  /** The map built by inserting each name and value in order, as `HashMap::insert` does. */
  function Collect(ps: seq<(string, string)>): map<string, string>
    decreases |ps|
  {
    if ps == [] then map[]
    else Collect(ps[..|ps| - 1])[ps[|ps| - 1].0 := ps[|ps| - 1].1]
  }

  /** The field lines of one more well-formed header end with its name and value. */
  lemma FieldLinesStep(hs: seq<string>, i: nat)
    requires i < |hs| && AllWellFormed(hs[..i]) && WellFormed(hs[i])
    ensures AllWellFormed(hs[..i + 1])
    ensures FieldLines(hs[..i + 1]) == FieldLines(hs[..i]) + [(Key(hs[i]), Value(hs[i]))]
  {
    assert hs[..i + 1][..i] == hs[..i];
  }

  /** Collecting one more pair inserts it. */
  lemma CollectAppend(ps: seq<(string, string)>, p: (string, string))
    ensures Collect(ps + [p]) == Collect(ps)[p.0 := p.1]
  {
    assert (ps + [p])[..|ps|] == ps;
  }

  /** The collected names are exactly the inserted names. */
  lemma {:induction false} CollectKeys(ps: seq<(string, string)>, k: string)
    ensures k in Collect(ps) <==> exists i :: 0 <= i < |ps| && ps[i].0 == k
    decreases |ps|
  {
    if ps != [] {
      var init := ps[..|ps| - 1];
      CollectKeys(init, k);
      if exists i :: 0 <= i < |init| && init[i].0 == k {
        var i :| 0 <= i < |init| && init[i].0 == k;
        assert ps[i] == init[i];
      }
      if exists i :: 0 <= i < |ps| && ps[i].0 == k {
        var i :| 0 <= i < |ps| && ps[i].0 == k;
        if i < |ps| - 1 {
          assert init[i] == ps[i];
        }
      }
    }
  }

  /** A name maps to the value of the last pair with that name: later pairs overwrite earlier ones. */
  lemma {:induction false} CollectLastWins(ps: seq<(string, string)>, j: nat)
    requires j < |ps|
    requires forall i :: j < i < |ps| ==> ps[i].0 != ps[j].0
    ensures ps[j].0 in Collect(ps) && Collect(ps)[ps[j].0] == ps[j].1
    decreases |ps|
  {
    if j < |ps| - 1 {
      var init := ps[..|ps| - 1];
      assert init[j] == ps[j];
      forall i | j < i < |init| ensures init[i].0 != init[j].0 {
        assert init[i] == ps[i];
      }
      CollectLastWins(init, j);
    }
  }

  /** The i-th field line is the i-th header's trimmed name and value. */
  lemma {:induction false} FieldLinesAt(hs: seq<string>, i: nat)
    requires AllWellFormed(hs) && i < |hs|
    ensures FieldLines(hs)[i] == (Key(hs[i]), Value(hs[i]))
    decreases |hs|
  {
    if i < |hs| - 1 {
      var init := hs[..|hs| - 1];
      assert init[i] == hs[i];
      FieldLinesAt(init, i);
    }
  }

  /**
   * Among headers with the same trimmed name, the last one's trimmed value
   * is the one the map keeps.
   */
  lemma HeaderLastWins(hs: seq<string>, j: nat)
    requires AllWellFormed(hs) && j < |hs|
    requires forall i :: j < i < |hs| ==> Key(hs[i]) != Key(hs[j])
    ensures Key(hs[j]) in Collect(FieldLines(hs))
    ensures Collect(FieldLines(hs))[Key(hs[j])] == Value(hs[j])
  {
    var ps := FieldLines(hs);
    FieldLinesAt(hs, j);
    forall i | j < i < |ps| ensures ps[i].0 != ps[j].0 {
      FieldLinesAt(hs, i);
    }
    CollectLastWins(ps, j);
  }

  /**
   * The header loop: `Err(h)` for the first header `h` that has no colon,
   * looking no further; otherwise every header's trimmed name mapped to
   * its trimmed value.
   */
  method ParseHeaders(hs: seq<string>) returns (r: Result<map<string, string>, string>)
    ensures r.Ok? <==> AllWellFormed(hs)
    ensures r.Ok? ==> r.value == Collect(FieldLines(hs))
    ensures r.Err? ==> exists i :: 0 <= i < |hs| && r.error == hs[i] && !WellFormed(hs[i])
                                   && AllWellFormed(hs[..i])
  {
    var headers: map<string, string> := map[];
    for i := 0 to |hs|
      invariant AllWellFormed(hs[..i])
      invariant headers == Collect(FieldLines(hs[..i]))
    {
      var parts := SplitAtFirstColon(hs[i]);
      if parts.None? {
        assert !WellFormed(hs[i]);
        return Err(hs[i]);
      }
      var first, second := parts.value.0, parts.value.1;
      FieldLinesStep(hs, i);
      CollectAppend(FieldLines(hs[..i]), (Key(hs[i]), Value(hs[i])));
      headers := headers[Trim(first) := Trim(second)];
    }
    assert hs[..|hs|] == hs;
    return Ok(headers);
  }

  /** An empty name is accepted: ":v" names "" with value "v". */
  lemma EmptyNameAccepted()
    ensures AllWellFormed([":v"])
    ensures Collect(FieldLines([":v"])) == map["" := "v"]
  {
    assert ":v"[0] == ':';
    assert SplitAtFirstColon(":v") == Some(("", "v"));
    TrimOfTrimmed("v");
    assert [":v"][..0] == [];
  }

  /** The value keeps every colon after the first, and both parts lose their padding. */
  lemma LaterColonsStayInValue()
    ensures WellFormed(" Host : a:b ")
    ensures Key(" Host : a:b ") == "Host" && Value(" Host : a:b ") == "a:b"
  {
    SplitExample();
    TrimNameExample();
    TrimValueExample();
  }

  lemma TrimNameExample()
    ensures Trim(" Host ") == "Host"
  {
    TrimPadded("Host");
    assert " " + "Host" + " " == " Host ";
  }

  lemma TrimValueExample()
    ensures Trim(" a:b ") == "a:b"
  {
    TrimPadded("a:b");
    assert " " + "a:b" + " " == " a:b ";
  }

  lemma SplitExample()
    ensures SplitAtFirstColon(" Host : a:b ") == Some((" Host ", " a:b "))
  {
    var k, v := " Host ", " a:b ";
    assert k + ":" + v == " Host : a:b ";
    SplitAtFirstColonUnique(k + ":" + v, k, v);
  }

  /** A name without a colon is malformed. */
  lemma NoColonMalformed()
    ensures !WellFormed("Accept")
  {
  }

  /** One space on each side of an unpadded non-empty string is trimmed away. */
  lemma TrimPadded(core: string)
    requires core != [] && !IsWhitespace(core[0]) && !IsWhitespace(core[|core| - 1])
    ensures Trim(" " + core + " ") == core
  {
    var s := " " + core + " ";
    assert s[1..] == core + " ";
    assert TrimStart(core + " ") == core + " ";
    assert (core + " ")[..|core|] == core;
    assert TrimEnd(core + " ") == TrimEnd(core);
    TrimOfTrimmed(core);
  }

  // ---------------------------------------------------------------------
  // Order of the two checks

  datatype CliError = MalformedHeader(header: string) | UnsupportedMethod(name: string)

  /** What the client goes on to send: the method and the header map. */
  datatype Prepared = Prepared(verb: HttpMethod, headers: map<string, string>)

  /**
   * The two validation steps in program order: headers first, then the
   * method name. A malformed header ends the program even when the method
   * name is also unsupported.
   */
  method PrepareRequest(headerArgs: seq<string>, methodArg: string) returns (r: Result<Prepared, CliError>)
    ensures !AllWellFormed(headerArgs) ==> r.Err? && r.error.MalformedHeader?
    ensures r.Err? && r.error.MalformedHeader? ==>
      exists i :: 0 <= i < |headerArgs| && r.error.header == headerArgs[i] && !WellFormed(headerArgs[i])
                  && AllWellFormed(headerArgs[..i])
    ensures r.Ok? <==> AllWellFormed(headerArgs) && ParseMethod(methodArg).Some?
    ensures r.Ok? ==> r.value == Prepared(ParseMethod(methodArg).value, Collect(FieldLines(headerArgs)))
    ensures r.Err? && r.error.UnsupportedMethod? ==>
      AllWellFormed(headerArgs) && ParseMethod(methodArg).None? && r.error.name == methodArg
  {
    var headers := ParseHeaders(headerArgs);
    if headers.Err? {
      return Err(MalformedHeader(headers.error));
    }
    var verb := ParseMethod(methodArg);
    match verb
    case None =>
      r := Err(UnsupportedMethod(methodArg));
    case Some(m) =>
      r := Ok(Prepared(m, headers.value));
  }
}

/**
 The string level of packages/arg-parser/src/uri-generator.ts: splitting hosts and ports as its
 regular expressions do.
 */
module HostList {
  import opened Prelude

  datatype Error =
    | Conflict
    | InvalidHost(character: char)
    | PortMismatch
    | InvalidUri
    | DivergingServiceName
    | ServiceNameUnsupported
    | Malformed

  datatype Result<T> = Ok(value: T) | Err(error: Error)

  predicate AllDigits(s: string) {
    forall i :: 0 <= i < |s| ==> IsDigit(s[i])
  }

  /** The characters that `.` does not match. */
  predicate IsLineTerminator(c: char) {
    c == '\n' || c == '\r' || c == '\U{2028}' || c == '\U{2029}'
  }

  predicate OneLine(s: string) {
    forall i :: 0 <= i < |s| ==> !IsLineTerminator(s[i])
  }

  /** The number of digits right before position `k`. */
  function DigitsBefore(s: string, k: nat): (n: nat)
    requires k <= |s|
    ensures n <= k && (n < k ==> !IsDigit(s[k - n - 1])) && forall i :: k - n <= i < k ==> IsDigit(s[i])
  {
    if k > 0 && IsDigit(s[k - 1]) then DigitsBefore(s, k - 1) + 1 else 0
  }

  /** The number of digits that `s` ends with. */
  function TrailingDigits(s: string): (n: nat)
    ensures n <= |s| && AllDigits(s[|s| - n..]) && (n < |s| ==> !IsDigit(s[|s| - n - 1]))
  {
    DigitsBefore(s, |s|)
  }

  /** A host and, if there is one, its port. */
  datatype HostPort = HostPort(host: string, port: Option<string>)

  /**
   `/^(?<host>.+?)(:(?<port>\d+))?$/`: the last colon splits when it is followed by digits only and
   not the first character. Without a match both groups are undefined, and print as such.
   */
  function SplitHostPort(h: string): HostPort {
    var n := TrailingDigits(h);
    if h == "" || !OneLine(h) then HostPort("undefined", None)
    else if n > 0 && |h| - n >= 2 && h[|h| - n - 1] == ':' then HostPort(h[..|h| - n - 1], Some(h[|h| - n..]))
    else HostPort(h, None)
  }

  /** One turn of the loop in `validateHostSeedList`; an absent fixed port is the empty string. */
  function Normalize(h: string, fixedPort: string): Result<string> {
    var s := SplitHostPort(h);
    if fixedPort != "" && s.port.Some? && s.port.value != fixedPort then Err(PortMismatch)
    else if s.port.Some? then Ok(s.host + ":" + s.port.value)
    else if fixedPort != "" then Ok(s.host + ":" + fixedPort)
    else Ok(s.host)
  }

  function ValidateHostSeedList(hosts: seq<string>, fixedPort: string): Result<seq<string>> {
    if hosts == [] then Ok([])
    else
      match Normalize(hosts[0], fixedPort)
      case Err(e) => Err(e)
      case Ok(h) =>
        match ValidateHostSeedList(hosts[1..], fixedPort)
        case Err(e) => Err(e)
        case Ok(rest) => Ok([h] + rest)
  }

  lemma {:induction false} ValidatedOneByOne(hosts: seq<string>, fixedPort: string)
    ensures var r := ValidateHostSeedList(hosts, fixedPort);
            && (r.Ok? <==> forall i :: 0 <= i < |hosts| ==> Normalize(hosts[i], fixedPort).Ok?)
            && (r.Err? ==> r.error == PortMismatch)
            && (r.Ok? ==> |r.value| == |hosts|)
            && (r.Ok? ==> forall i :: 0 <= i < |hosts| ==> Normalize(hosts[i], fixedPort) == Ok(r.value[i]))
    decreases |hosts|
  {
    if hosts != [] {
      ValidatedOneByOne(hosts[1..], fixedPort);
      assert forall i :: 1 <= i < |hosts| ==> hosts[i] == hosts[1..][i - 1];
    }
  }

  method DoValidateHostSeedList(hosts: seq<string>, fixedPort: string) returns (r: Result<seq<string>>)
    ensures r == ValidateHostSeedList(hosts, fixedPort)
  {
    var hostList := [];
    for i := 0 to |hosts|
      invariant |hostList| == i
      invariant forall j :: 0 <= j < i ==> Normalize(hosts[j], fixedPort) == Ok(hostList[j])
    {
      var s := SplitHostPort(hosts[i]);
      if fixedPort != "" && s.port.Some? && s.port.value != fixedPort {
        ValidatedOneByOne(hosts, fixedPort);
        assert Normalize(hosts[i], fixedPort).Err?;
        return Err(PortMismatch);
      }
      hostList := hostList + [if s.port.Some? then s.host + ":" + s.port.value
                              else if fixedPort != "" then s.host + ":" + fixedPort
                              else s.host];
    }
    ValidatedOneByOne(hosts, fixedPort);
    assert hostList == ValidateHostSeedList(hosts, fixedPort).value;
    return Ok(hostList);
  }

  // ---------- splitting what was put together ----------

  /** Two counts of trailing digits that both stop at something else are the same count. */
  lemma SameCount(s: string, n: nat, m: nat)
    requires n <= |s| && (n < |s| ==> !IsDigit(s[|s| - n - 1])) && forall i :: |s| - n <= i < |s| ==> IsDigit(s[i])
    requires m <= |s| && (m < |s| ==> !IsDigit(s[|s| - m - 1])) && forall i :: |s| - m <= i < |s| ==> IsDigit(s[i])
    ensures n == m
  {}

  lemma TrailingDigitsIs(s: string, n: nat)
    requires n <= |s| && (n < |s| ==> !IsDigit(s[|s| - n - 1])) && forall i :: |s| - n <= i < |s| ==> IsDigit(s[i])
    ensures TrailingDigits(s) == n
  {
    SameCount(s, n, TrailingDigits(s));
  }

  lemma PrefixOneLine(h: string, k: nat)
    requires OneLine(h) && k <= |h|
    ensures OneLine(h[..k])
  {
    forall i | 0 <= i < k ensures !IsLineTerminator(h[..k][i]) {
      assert h[..k][i] == h[i];
    }
  }

  lemma UndefinedIsOneLine()
    ensures "undefined" != "" && OneLine("undefined")
  {}

  /** The host of a split is one line and not empty. */
  lemma SplitHostIsOneLine(h: string)
    ensures var s := SplitHostPort(h);
            && s.host != "" && OneLine(s.host)
            && (s.port.Some? ==> s.port.value != "" && AllDigits(s.port.value))
  {
    var n := TrailingDigits(h);
    if h == "" || !OneLine(h) {
      UndefinedIsOneLine();
    } else if n > 0 && |h| - n >= 2 && h[|h| - n - 1] == ':' {
      PrefixOneLine(h, |h| - n - 1);
      assert |h[|h| - n..]| == n && |h[..|h| - n - 1]| > 0;
    }
  }

  lemma SplitJoined(host: string, port: string)
    requires host != "" && OneLine(host) && port != "" && AllDigits(port)
    ensures SplitHostPort(host + ":" + port) == HostPort(host, Some(port))
  {
    var h := host + ":" + port;
    assert h[|host| + 1..] == port && h[..|host|] == host && h[|host|] == ':';
    assert forall i :: |h| - |port| <= i < |h| ==> h[i] == port[i - |host| - 1];
    TrailingDigitsIs(h, |port|);
    forall i | 0 <= i < |h| ensures !IsLineTerminator(h[i]) {
      if i > |host| {
        assert h[i] == port[i - |host| - 1];
      }
    }
  }

  /** A host that had no port splits off none the second time either. */
  lemma SplitAlone(h: string)
    requires SplitHostPort(h).port.None?
    ensures SplitHostPort(SplitHostPort(h).host) == SplitHostPort(h)
  {
    if h == "" || !OneLine(h) {
      TrailingDigitsIs("undefined", 0);
    }
  }

  lemma SplitOdd(host: string, port: string)
    requires host != "" && OneLine(host) && port != "" && OneLine(port) && !AllDigits(port)
    ensures var s := SplitHostPort(host + ":" + port);
            s == HostPort(host + ":" + port, None) || (s.port.Some? && s.port.value != port)
  {
    SplitHostIsOneLine(host + ":" + port);
    var h := host + ":" + port;
    assert forall i :: 0 <= i < |h| ==> h[i] in host || h[i] == ':' || h[i] in port;
    assert OneLine(h);
  }

  /** What a host becomes: it keeps its port, which must not differ from a fixed one, or gets the fixed one. */
  lemma NormalizeAnswers(host: string, port: string, fixedPort: string)
    requires host != "" && OneLine(host) && port != "" && forall i :: 0 <= i < |port| ==> '0' <= port[i] <= '9'
    ensures Normalize(host + ":" + port, fixedPort)
         == if fixedPort == "" || fixedPort == port then Ok(host + ":" + port) else Err(PortMismatch)
    ensures (forall i :: 0 <= i < |host| ==> host[i] != ':') ==>
              Normalize(host, fixedPort) == Ok(if fixedPort == "" then host else host + ":" + fixedPort)
  {
    SplitJoined(host, port);
  }

  // ---------- idempotence ----------

  lemma NormalizeTwice(h: string, fixedPort: string)
    requires AllDigits(fixedPort) && Normalize(h, fixedPort).Ok?
    ensures Normalize(Normalize(h, fixedPort).value, fixedPort) == Normalize(h, fixedPort)
  {
    var s := SplitHostPort(h);
    SplitHostIsOneLine(h);
    if s.port.Some? {
      SplitJoined(s.host, s.port.value);
    } else if fixedPort != "" {
      SplitJoined(s.host, fixedPort);
    } else {
      SplitAlone(h);
    }
  }

  /** A fixed port that is not a number is not recognized in what it was appended to. */
  lemma NormalizeOdd(h: string, fixedPort: string)
    requires !AllDigits(fixedPort) && Normalize(h, fixedPort).Ok?
    ensures Normalize(Normalize(h, fixedPort).value, fixedPort) == Normalize(h, fixedPort)
            <==> !OneLine(fixedPort) && SplitHostPort(h).host == "undefined"
  {
    var s := SplitHostPort(h);
    SplitHostIsOneLine(h);
    assert s.port.None?;
    var out := s.host + ":" + fixedPort;
    if OneLine(fixedPort) {
      SplitOdd(s.host, fixedPort);
      assert |out + ":" + fixedPort| > |out|;
    } else {
      var i :| 0 <= i < |fixedPort| && IsLineTerminator(fixedPort[i]);
      assert out[|s.host| + 1 + i] == fixedPort[i];
      assert SplitHostPort(out) == HostPort("undefined", None);
      if s.host != "undefined" {
        HeadsDiffer("undefined", s.host, ":");
        HeadsDiffer("undefined" + ":", s.host + ":", fixedPort);
      }
    }
  }

  lemma HeadsDiffer(a: string, b: string, tail: string)
    requires a != b
    ensures a + tail != b + tail
  {
    if |a| == |b| {
      assert a == (a + tail)[..|a|] && b == (b + tail)[..|b|];
    } else {
      assert |a + tail| != |b + tail|;
    }
  }

  /** With a numeric fixed port, or none, the list is a fixed point and never fails on its own output. */
  lemma ValidationIsIdempotent(hosts: seq<string>, fixedPort: string)
    requires AllDigits(fixedPort) && ValidateHostSeedList(hosts, fixedPort).Ok?
    ensures ValidateHostSeedList(ValidateHostSeedList(hosts, fixedPort).value, fixedPort)
         == ValidateHostSeedList(hosts, fixedPort)
  {
    ValidatedOneByOne(hosts, fixedPort);
    var out := ValidateHostSeedList(hosts, fixedPort).value;
    forall i | 0 <= i < |out| ensures Normalize(out[i], fixedPort) == Ok(out[i]) {
      NormalizeTwice(hosts[i], fixedPort);
    }
    ValidatedOneByOne(out, fixedPort);
    assert ValidateHostSeedList(out, fixedPort).value == out;
  }

  lemma OneHost(h: string, fixedPort: string)
    requires Normalize(h, fixedPort).Ok?
    ensures ValidateHostSeedList([h], fixedPort) == Ok([Normalize(h, fixedPort).value])
  {
    ValidatedOneByOne([h], fixedPort);
    assert Normalize([h][0], fixedPort).Ok?;
    var out := ValidateHostSeedList([h], fixedPort).value;
    assert out == [out[0]];
  }

  /** A host that gets a fixed port which is no number gets it again and again. */
  lemma OddPortIsAddedAgain()
    ensures ValidateHostSeedList(["h"], "abc") == Ok(["h:abc"])
    ensures ValidateHostSeedList(["h:abc"], "abc") == Ok(["h:abc:abc"])
  {
    assert SplitHostPort("h") == HostPort("h", None);
    assert SplitHostPort("h:abc") == HostPort("h:abc", None);
    assert "h" + ":" + "abc" == "h:abc" && "h:abc" + ":" + "abc" == "h:abc:abc";
    assert Normalize("h", "abc") == Ok("h:abc") && Normalize("h:abc", "abc") == Ok("h:abc:abc");
    OneHost("h", "abc");
    OneHost("h:abc", "abc");
  }

  /** A fixed port that is no number itself, but ends like a host with a port: `a:1`. */
  predicate EndsInPort(fixedPort: string) {
    var n := TrailingDigits(fixedPort);
    0 < n < |fixedPort| && fixedPort[|fixedPort| - n - 1] == ':'
  }

  lemma {:induction false} DigitsAppend(prefix: string, s: string, k: nat)
    requires k <= |s| && DigitsBefore(s, k) < k
    ensures DigitsBefore(prefix + s, |prefix| + k) == DigitsBefore(s, k)
    decreases k
  {
    if IsDigit(s[k - 1]) {
      DigitsAppend(prefix, s, k - 1);
    }
  }

  lemma NotAllTrailing(s: string)
    requires !AllDigits(s)
    ensures TrailingDigits(s) < |s|
  {
    assert s[0..] == s;
  }

  lemma OneLineJoined(host: string, port: string)
    requires OneLine(host) && OneLine(port)
    ensures OneLine(host + ":" + port)
  {
    var h := host + ":" + port;
    forall i | 0 <= i < |h| ensures !IsLineTerminator(h[i]) {
      if i > |host| {
        assert h[i] == port[i - |host| - 1];
      }
    }
  }

  lemma SplitOddPort(host: string, fixedPort: string)
    requires host != "" && OneLine(host) && OneLine(fixedPort) && !AllDigits(fixedPort)
    ensures SplitHostPort(host + ":" + fixedPort).port.Some? <==> EndsInPort(fixedPort)
  {
    var h, n := host + ":" + fixedPort, TrailingDigits(fixedPort);
    OneLineJoined(host, fixedPort);
    NotAllTrailing(fixedPort);
    DigitsAppend(host + ":", fixedPort, |fixedPort|);
    assert TrailingDigits(h) == n && h[|h| - n - 1] == fixedPort[|fixedPort| - n - 1];
  }

  /** One host, a second time: it is rejected exactly when the port it got reads as host and port. */
  lemma RejectedAgain(h: string, fixedPort: string)
    requires Normalize(h, fixedPort).Ok?
    ensures Normalize(Normalize(h, fixedPort).value, fixedPort).Err? <==> OneLine(fixedPort) && EndsInPort(fixedPort)
  {
    if AllDigits(fixedPort) {
      NormalizeTwice(h, fixedPort);
      AllTrailing(fixedPort);
    } else {
      var s := SplitHostPort(h);
      SplitHostIsOneLine(h);
      var out := s.host + ":" + fixedPort;
      if OneLine(fixedPort) {
        SplitOddPort(s.host, fixedPort);
        SplitHostIsOneLine(out);
      } else {
        var i :| 0 <= i < |fixedPort| && IsLineTerminator(fixedPort[i]);
        assert out[|s.host| + 1 + i] == fixedPort[i];
      }
    }
  }

  lemma AllTrailing(s: string)
    requires AllDigits(s)
    ensures TrailingDigits(s) == |s|
  {
    TrailingDigitsIs(s, |s|);
  }

  /** Exactly when does validation fail on its own output? */
  lemma FailsOnOwnOutputIff(hosts: seq<string>, fixedPort: string)
    requires ValidateHostSeedList(hosts, fixedPort).Ok?
    ensures ValidateHostSeedList(ValidateHostSeedList(hosts, fixedPort).value, fixedPort) == Err(PortMismatch)
            <==> hosts != [] && OneLine(fixedPort) && EndsInPort(fixedPort)
  {
    ValidatedOneByOne(hosts, fixedPort);
    var out := ValidateHostSeedList(hosts, fixedPort).value;
    ValidatedOneByOne(out, fixedPort);
    forall i | 0 <= i < |out|
      ensures Normalize(out[i], fixedPort).Err? <==> OneLine(fixedPort) && EndsInPort(fixedPort)
    {
      RejectedAgain(hosts[i], fixedPort);
    }
    if hosts != [] && OneLine(fixedPort) && EndsInPort(fixedPort) {
      assert Normalize(out[0], fixedPort).Err?;
    }
  }

  /** Host `h` with the fixed port `a:1`. */
  lemma OddPortIsRejectedAgain()
    ensures ValidateHostSeedList(["h"], "a:1") == Ok(["h:a:1"])
    ensures ValidateHostSeedList(["h:a:1"], "a:1") == Err(PortMismatch)
  {
    assert SplitHostPort("h") == HostPort("h", None) && "h" + ":" + "a:1" == "h:a:1";
    OneHost("h", "a:1");
    TrailingDigitsIs("a:1", 1);
    FailsOnOwnOutputIff(["h"], "a:1");
  }

  /**
   Exactly when is it a fixed point? When the fixed port is a number, but for the odd case of a fixed
   port with a line break in it and hosts that all print as `undefined`.
   */
  lemma IdempotentIffNumericPort(hosts: seq<string>, fixedPort: string)
    requires ValidateHostSeedList(hosts, fixedPort).Ok?
    ensures ValidateHostSeedList(ValidateHostSeedList(hosts, fixedPort).value, fixedPort)
            == ValidateHostSeedList(hosts, fixedPort)
            <==> AllDigits(fixedPort) || forall i :: 0 <= i < |hosts| ==>
                   !OneLine(fixedPort) && SplitHostPort(hosts[i]).host == "undefined"
  {
    if AllDigits(fixedPort) {
      ValidationIsIdempotent(hosts, fixedPort);
    } else {
      ValidatedOneByOne(hosts, fixedPort);
      var out := ValidateHostSeedList(hosts, fixedPort).value;
      ValidatedOneByOne(out, fixedPort);
      forall i | 0 <= i < |hosts|
        ensures Normalize(out[i], fixedPort) == Ok(out[i])
                <==> !OneLine(fixedPort) && SplitHostPort(hosts[i]).host == "undefined"
      {
        NormalizeOdd(hosts[i], fixedPort);
      }
      if forall i :: 0 <= i < |out| ==> Normalize(out[i], fixedPort) == Ok(out[i]) {
        assert ValidateHostSeedList(out, fixedPort).value == out;
      }
    }
  }
}

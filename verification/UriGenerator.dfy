/**
 `generateUri` of packages/arg-parser/src/uri-generator.ts. Connection strings are the records of
 their parts: printing one and parsing it again is the identity, and only the text of a specifier
 that is no connection string is looked into.
 */
module UriGenerator {
  import opened Prelude
  import opened HostList

  /** `auth` is everything in front of the hosts, `properties` the parsed `authMechanismProperties`. */
  datatype ConnectionString = ConnectionString(
    srv: bool,
    auth: string,
    hosts: seq<string>,
    path: Path,
    params: map<string, string>,
    properties: Option<map<string, string>>)

  /** A path as it was written, or what `encodeURIComponent` makes of a text or a whole specifier. */
  datatype Path = Plain(s: string) | Encoded(of: Specifier)

  /** The connection specifier: a connection string of either scheme, or any other text. */
  datatype Specifier = Uri(cs: ConnectionString) | Words(text: string)

  /** Absent options are empty strings. */
  datatype Options = Options(nodb: bool, specifier: Specifier, host: string, port: string, gssapiServiceName: string)

  const DEFAULT_HOST := "127.0.0.1"
  const DEFAULT_PORT := "27017"

  // ---------- characters and words ----------

  predicate IsNameChar(c: char) { IsAlnum(c) || c == '.' || c == '_' || c == '-' }

  predicate IsHexOrColon(c: char) { IsDigit(c) || 'a' <= c <= 'f' || 'A' <= c <= 'F' || c == ':' }

  /** `\s` */
  predicate IsSpace(c: char) {
    c in {' ', '\t', '\n', '\U{000B}', '\U{000C}', '\r', '\U{00A0}', '\U{1680}', '\U{2028}', '\U{2029}', '\U{202F}',
          '\U{205F}', '\U{3000}', '\U{FEFF}'} || '\U{2000}' <= c <= '\U{200A}'
  }

  /** The part of `s` in front of the first `c`; all of it when there is none. */
  function Before(s: string, c: char): string {
    if s == "" || s[0] == c then "" else [s[0]] + Before(s[1..], c)
  }

  function SplitAt(s: string, c: char): seq<string>
    ensures SplitAt(s, c) != []
    decreases |s|
  {
    var head := Before(s, c);
    BeforeIsPrefix(s, c);
    if |head| < |s| then [head] + SplitAt(s[|head| + 1..], c) else [head]
  }

  lemma BeforeIsPrefix(s: string, c: char)
    ensures Before(s, c) <= s && c !in Before(s, c)
    ensures |Before(s, c)| < |s| ==> s[|Before(s, c)|] == c
  {
    if s != "" && s[0] != c {
      BeforeIsPrefix(s[1..], c);
    }
  }

  function NonEmpty(ss: seq<string>): seq<string> {
    if ss == [] then [] else (if ss[0] == "" then [] else [ss[0]]) + NonEmpty(ss[1..])
  }

  /** `(:\d+)?$` */
  predicate IsPortSuffix(s: string) {
    s == "" || (|s| >= 2 && s[0] == ':' && AllDigits(s[1..]))
  }

  /** `/^([A-Za-z0-9._-]+|\[[0-9a-fA-F:]+\])(:\d+)?$/` */
  predicate IsHostPattern(s: string) {
    if s != "" && s[0] == '[' then
      var inner := Before(s[1..], ']');
      && inner != "" && (forall c :: c in inner ==> IsHexOrColon(c))
      && |inner| + 1 < |s| && IsPortSuffix(s[|inner| + 2..])
    else
      var name := Before(s, ':');
      && name != "" && (forall c :: c in name ==> IsNameChar(c))
      && |name| <= |s| && IsPortSuffix(s[|name|..])
  }

  /** `[<replSetName>/]<host>[:<port>][,...]`, or nothing when the option is not of this form. */
  function ParseHostOption(value: string): (string, seq<string>) {
    var parts := SplitAt(value, '/');
    if value == "" || |parts| > 2 then ("", [])
    else
      var hosts := NonEmpty(SplitAt(parts[|parts| - 1], ','));
      if forall i :: 0 <= i < |hosts| ==> IsHostPattern(hosts[i])
      then (if |parts| == 2 then parts[0] else "", hosts)
      else ("", [])
  }

  // ---------- host and port options ----------

  predicate IsHostChar(c: char) {
    IsAlnum(c) || c == '.' || c == ':' || c == '[' || c == ']' || c == '_' || c == '-'
  }

  function ValidateHost(host: string): Result<string> {
    if host == "" then Ok("")
    else if !IsHostChar(host[0]) then Err(InvalidHost(host[0]))
    else
      match ValidateHost(host[1..])
      case Err(e) => Err(e)
      case Ok(_) => Ok(host)
  }

  function GenerateHost(o: Options): Result<string> {
    if o.host == "" then Ok(DEFAULT_HOST)
    else
      match ValidateHost(o.host)
      case Err(e) => Err(e)
      case Ok(_) => Ok(Before(o.host, ':'))
  }

  /** `host.split(':')[1]` */
  function PortOfHost(host: string): string
    requires ':' in host
  {
    SplitHas(host, ':');
    SplitAt(host, ':')[1]
  }

  lemma SplitHas(s: string, c: char)
    requires c in s
    ensures |SplitAt(s, c)| >= 2
  {
    BeforeIsPrefix(s, c);
    assert |Before(s, c)| == |s| ==> Before(s, c) == s;
  }

  function GeneratePort(o: Options): Result<string> {
    if ':' in o.host then
      match ValidateHost(o.host)
      case Err(e) => Err(e)
      case Ok(_) => if o.port == "" || o.port == PortOfHost(o.host) then Ok(PortOfHost(o.host)) else Err(Conflict)
    else Ok(if o.port == "" then DEFAULT_PORT else o.port)
  }

  function HostAndPort(host: Result<string>, port: Result<string>): Result<string> {
    if host.Err? then host else if port.Err? then port else Ok(host.value + ":" + port.value)
  }

  // ---------- the five ways to a connection string ----------

  function ValidateConflicts(o: Options, cs: Option<ConnectionString>): Option<Error> {
    if o.host != "" || o.port != "" then Some(Conflict)
    else if o.gssapiServiceName != "" && cs.Some? && cs.value.properties.Some?
            && "SERVICE_NAME" in cs.value.properties.value
            && cs.value.properties.value["SERVICE_NAME"] != o.gssapiServiceName then Some(DivergingServiceName)
    else if cs.Some? && "gssapiServiceName" in cs.value.params then Some(ServiceNameUnsupported)
    else None
  }

  function AddShellConnectionStringParameters(cs: ConnectionString): ConnectionString {
    if "replicaSet" !in cs.params && "directConnection" !in cs.params && "loadBalanced" !in cs.params && |cs.hosts| == 1
    then cs.(params := cs.params["directConnection" := "true"])
    else cs
  }

  function New(host: string, path: Path): ConnectionString {
    ConnectionString(false, "", [host], path, map[], None)
  }

  /** The parts of `/^([A-Za-z0-9][A-Za-z0-9._-]+)(?::(\d+))?(?:\/(\S*))?$/i`; an absent part is empty. */
  datatype Parts = Parts(host: string, port: string, rest: string)

  function NameRun(s: string): (n: nat)
    ensures n <= |s|
  {
    if s != "" && IsNameChar(s[0]) then 1 + NameRun(s[1..]) else 0
  }

  function MatchRest(host: string, port: string, s: string): Option<Parts> {
    if s == "" then Some(Parts(host, port, ""))
    else if s[0] == '/' && forall c :: c in s[1..] ==> !IsSpace(c) then Some(Parts(host, port, s[1..]))
    else None
  }

  function MatchUri(uri: string): Option<Parts> {
    var n := NameRun(uri);
    if n < 2 || !IsAlnum(uri[0]) then None
    else
      var tail := uri[n..];
      if tail != "" && tail[0] == ':' then
        var port := Before(tail[1..], '/');
        BeforeIsPrefix(tail[1..], '/');
        if port != "" && AllDigits(port) then MatchRest(uri[..n], port, tail[1 + |port|..]) else None
      else MatchRest(uri[..n], "", tail)
  }

  predicate InvalidInDatabase(c: char) {
    c == '/' || c == '\\' || c == '.' || c == ' ' || c == '"' || c == '$'
  }

  /** The text of a specifier that is no connection string, in the way of the legacy shell. */
  function FromWords(o: Options, text: string): Result<ConnectionString> {
    var m := MatchUri(text);
    if m.None? && exists i :: 0 <= i < |text| && InvalidInDatabase(text[i]) then Err(InvalidUri)
    else
      var parts := if m.Some? then m.value else Parts(text, "", "");
      var isDb := parts.port == "" && parts.rest == "" && '.' !in parts.host;
      var host := if isDb then "" else parts.host;
      var path := if isDb then parts.host else parts.rest;
      var conflict := if host != "" || parts.port != "" then ValidateConflicts(o, None) else None;
      if conflict.Some? then Err(conflict.value)
      else
        match HostAndPort(if host != "" then Ok(host) else GenerateHost(o),
                          if parts.port != "" then Ok(parts.port) else GeneratePort(o))
        case Err(e) => Err(e)
        case Ok(h) => Ok(AddShellConnectionStringParameters(New(h, Encoded(Words(path)))))
  }

  function FromHostList(o: Options, replSetName: string, hosts: seq<string>): Result<ConnectionString> {
    match ValidateHostSeedList(hosts, o.port)
    case Err(e) => Err(e)
    case Ok(list) =>
      var cs := New("replacemeHost", Encoded(o.specifier)).(hosts := list);
      Ok(AddShellConnectionStringParameters(
           if replSetName != "" then cs.(params := cs.params["replicaSet" := replSetName]) else cs))
  }

  function GenerateUriNormalized(o: Options): Result<ConnectionString> {
    var (replSetName, hosts) := ParseHostOption(o.host);
    if replSetName != "" || |hosts| > 1 then FromHostList(o, replSetName, hosts)
    else if o.specifier == Words("") then
      match HostAndPort(GenerateHost(o), GeneratePort(o))
      case Err(e) => Err(e)
      case Ok(h) => Ok(New(h, Plain("")).(params := map["directConnection" := "true"]))
    else if o.specifier.Uri? then
      var cs := o.specifier.cs;
      var conflict := ValidateConflicts(o, Some(cs));
      if cs.hosts == [] then Err(Malformed)
      else if conflict.Some? then Err(conflict.value)
      else Ok(if cs.srv then cs else AddShellConnectionStringParameters(cs))
    else FromWords(o, o.specifier.text)
  }

  predicate IsLocal(host: string) {
    Before(host, ':') == "localhost" || Before(host, ':') == "127.0.0.1"
  }

  function AddTimeout(cs: ConnectionString): ConnectionString {
    if (forall i :: 0 <= i < |cs.hosts| ==> IsLocal(cs.hosts[i])) && "serverSelectionTimeoutMS" !in cs.params
    then cs.(params := cs.params["serverSelectionTimeoutMS" := "2000"])
    else cs
  }

  /** `None` is the empty URI of `--nodb`. */
  function GenerateUri(o: Options): Result<Option<ConnectionString>> {
    if o.nodb then Ok(None)
    else
      match GenerateUriNormalized(o)
      case Err(e) => Err(e)
      case Ok(cs) => Ok(Some(AddTimeout(cs)))
  }

  /** The options that name a connection string and nothing else. */
  function Only(cs: ConnectionString): Options {
    Options(false, Uri(cs), "", "", "")
  }

  // ---------- normalization is a fixed point ----------

  /** The loopback host under one of its two names, with or without a port. */
  predicate IsLoopback(h: string) {
    h == "localhost" || "localhost:" <= h || h == "127.0.0.1" || "127.0.0.1:" <= h
  }

  predicate AllLocal(cs: ConnectionString) {
    forall i :: 0 <= i < |cs.hosts| ==> IsLoopback(cs.hosts[i])
  }

  lemma BeforeIs(h: string, name: string, c: char)
    requires c !in name
    ensures Before(h, c) == name <==> h == name || name + [c] <= h
  {
    BeforeIsPrefix(h, c);
    if h == name || name + [c] <= h {
      BeforeJoined(name, h[|name|..], c);
      assert h == name + h[|name|..];
    }
  }

  lemma {:induction false} BeforeJoined(name: string, rest: string, c: char)
    requires c !in name && (rest == "" || rest[0] == c)
    ensures Before(name + rest, c) == name
    decreases |name|
  {
    if name == "" {
      assert name + rest == rest;
    } else {
      assert (name + rest)[0] == name[0] && (name + rest)[1..] == name[1..] + rest;
      BeforeJoined(name[1..], rest, c);
    }
  }

  lemma LocalIsLoopback(h: string)
    ensures IsLocal(h) <==> IsLoopback(h)
  {
    BeforeIs(h, "localhost", ':');
    BeforeIs(h, "127.0.0.1", ':');
    assert "localhost" + [':'] == "localhost:" && "127.0.0.1" + [':'] == "127.0.0.1:";
  }

  lemma LocalHosts(cs: ConnectionString)
    ensures AllLocal(cs) <==> forall i :: 0 <= i < |cs.hosts| ==> IsLocal(cs.hosts[i])
  {
    forall i | 0 <= i < |cs.hosts| ensures IsLocal(cs.hosts[i]) <==> IsLoopback(cs.hosts[i]) {
      LocalIsLoopback(cs.hosts[i]);
    }
  }

  /** No rule rejects this connection string, and every parameter that could be added is there. */
  predicate IsNormal(cs: ConnectionString) {
    && cs.hosts != [] && "gssapiServiceName" !in cs.params
    && (!cs.srv && |cs.hosts| == 1 ==>
          "replicaSet" in cs.params || "directConnection" in cs.params || "loadBalanced" in cs.params)
    && (AllLocal(cs) ==> "serverSelectionTimeoutMS" in cs.params)
  }

  /** What becomes of a connection string that is the only option. */
  lemma OnlyIs(cs: ConnectionString)
    ensures GenerateUri(Only(cs)) ==
            if cs.hosts == [] then Err(Malformed)
            else if "gssapiServiceName" in cs.params then Err(ServiceNameUnsupported)
            else Ok(Some(AddTimeout(if cs.srv then cs else AddShellConnectionStringParameters(cs))))
  {
    assert ParseHostOption("") == ("", []);
  }

  lemma OneMoreParameter(m: map<string, string>, k: string, v: string)
    ensures k !in m ==> m[k := v] != m
  {
    assert k in m[k := v];
  }

  /** Exactly the normal connection strings come back unchanged. */
  lemma NormalIsFixed(cs: ConnectionString)
    ensures GenerateUri(Only(cs)) == Ok(Some(cs)) <==> IsNormal(cs)
  {
    OnlyIs(cs);
    LocalHosts(cs);
    OneMoreParameter(cs.params, "serverSelectionTimeoutMS", "2000");
    var shell := AddShellConnectionStringParameters(cs);
    if !cs.srv && shell != cs {
      assert "directConnection" in AddTimeout(shell).params && "directConnection" !in cs.params;
    }
  }

  lemma ParametersAdded(cs: ConnectionString)
    requires cs.hosts != [] && "gssapiServiceName" !in cs.params
    ensures IsNormal(AddTimeout(AddShellConnectionStringParameters(cs)))
    ensures cs.srv ==> IsNormal(AddTimeout(cs))
  {
    var shell := AddShellConnectionStringParameters(cs);
    LocalHosts(cs);
    LocalHosts(shell);
    NamesDiffer();
    assert "gssapiServiceName" !in shell.params;
  }

  lemma NamesDiffer()
    ensures "directConnection" != "serverSelectionTimeoutMS" && "replicaSet" != "serverSelectionTimeoutMS"
    ensures "replicaSet" != "directConnection" && "gssapiServiceName" != "directConnection"
    ensures "gssapiServiceName" != "serverSelectionTimeoutMS" && "gssapiServiceName" != "replicaSet"
  {
    assert "directConnection"[0] == 'd' && "serverSelectionTimeoutMS"[0] == 's';
    assert "replicaSet"[0] == 'r' && "gssapiServiceName"[0] == 'g';
  }

  /** The only way to an empty host list: a replica set name with no hosts behind it. */
  predicate NamesNoHosts(o: Options) {
    ParseHostOption(o.host).0 != "" && ParseHostOption(o.host).1 == []
  }

  lemma HostsFromList(o: Options, replSetName: string, hosts: seq<string>)
    requires FromHostList(o, replSetName, hosts).Ok? && (replSetName != "" || |hosts| > 1)
    ensures var cs := FromHostList(o, replSetName, hosts).value;
            && (cs.hosts == [] <==> hosts == [])
            && (hosts != [] ==> IsNormal(AddTimeout(cs)))
  {
    ValidatedOneByOne(hosts, o.port);
    NamesDiffer();
    var base := New("replacemeHost", Encoded(o.specifier)).(hosts := ValidateHostSeedList(hosts, o.port).value);
    var named := if replSetName != "" then base.(params := base.params["replicaSet" := replSetName]) else base;
    if hosts != [] {
      ParametersAdded(named);
    }
  }

  /** Each of the ways ends in a connection string with nothing left to add, but for an empty host list. */
  lemma GeneratedIsNormal(o: Options)
    requires GenerateUri(o).Ok? && GenerateUri(o).value.Some?
    ensures var cs := GenerateUri(o).value.value;
            && (cs.hosts == [] <==> NamesNoHosts(o))
            && (!NamesNoHosts(o) ==> IsNormal(cs))
  {
    var (replSetName, hosts) := ParseHostOption(o.host);
    if replSetName != "" || |hosts| > 1 {
      HostsFromList(o, replSetName, hosts);
    } else if o.specifier == Words("") {
      NamesDiffer();
      LocalHosts(GenerateUri(o).value.value);
    } else if o.specifier.Uri? {
      ParametersAdded(o.specifier.cs);
    } else {
      WordsAreNormal(o);
    }
  }

  lemma WordsAreNormal(o: Options)
    requires o.specifier.Words? && FromWords(o, o.specifier.text).Ok?
    ensures var cs := FromWords(o, o.specifier.text).value; cs.hosts != [] && IsNormal(AddTimeout(cs))
  {
    var cs := FromWords(o, o.specifier.text).value;
    var path := cs.path;
    assert cs == AddShellConnectionStringParameters(New(cs.hosts[0], path));
    ParametersAdded(New(cs.hosts[0], path));
  }

  /**
   Feeding a generated URI back as the only option returns it unchanged, unless the host option named a
   replica set and no hosts: such a URI is rejected.
   */
  lemma GenerateUriIsFixedPoint(o: Options)
    requires GenerateUri(o).Ok? && GenerateUri(o).value.Some?
    ensures GenerateUri(Only(GenerateUri(o).value.value)) ==
            if NamesNoHosts(o) then Err(Malformed) else GenerateUri(o)
  {
    GeneratedIsNormal(o);
    NormalIsFixed(GenerateUri(o).value.value);
    OnlyIs(GenerateUri(o).value.value);
  }

  // ---------- the host and port that the options ask for ----------

  /** The position of the first `c`, or the length when there is none. */
  function IndexOf(s: string, c: char): (i: nat)
    ensures i <= |s| && (i < |s| ==> s[i] == c) && forall j :: 0 <= j < i ==> s[j] != c
  {
    if s == "" || s[0] == c then 0 else 1 + IndexOf(s[1..], c)
  }

  lemma BeforeIsIndexOf(s: string, c: char)
    ensures Before(s, c) == s[..IndexOf(s, c)]
  {
    var i := IndexOf(s, c);
    BeforeJoined(s[..i], s[i..], c);
    assert s == s[..i] + s[i..];
  }

  predicate IsAllowedInHost(c: char) {
    || 'a' <= c <= 'z' || 'A' <= c <= 'Z' || '0' <= c <= '9'
    || c == '.' || c == ':' || c == '[' || c == ']' || c == '_' || c == '-'
  }

  /** In front of the first colon of the host option; the loopback host without the option. */
  function WantedHost(o: Options): string {
    if o.host == "" then "127.0.0.1" else o.host[..IndexOf(o.host, ':')]
  }

  /** Between its first and its second colon; else the port option; else the default. */
  function WantedPort(o: Options): string {
    var i := IndexOf(o.host, ':');
    if i < |o.host| then
      var rest := o.host[i + 1..];
      rest[..IndexOf(rest, ':')]
    else if o.port != "" then o.port else "27017"
  }

  /** A host option that names a port of its own, beside a port option with another one. */
  predicate PortsDiffer(o: Options) {
    ':' in o.host && o.port != "" && o.port != WantedPort(o)
  }

  lemma {:induction false} ValidateHostIs(host: string)
    ensures match ValidateHost(host)
            case Ok(h) => h == host && forall i :: 0 <= i < |host| ==> IsAllowedInHost(host[i])
            case Err(e) => exists i :: 0 <= i < |host| && !IsAllowedInHost(host[i]) && e == InvalidHost(host[i])
    decreases |host|
  {
    if host != "" && IsHostChar(host[0]) {
      ValidateHostIs(host[1..]);
      assert forall i :: 1 <= i < |host| ==> host[i] == host[1..][i - 1];
      if ValidateHost(host[1..]).Err? {
        var i :| 0 <= i < |host| - 1 && !IsAllowedInHost(host[1..][i])
                 && ValidateHost(host[1..]).error == InvalidHost(host[1..][i]);
        assert host[i + 1] == host[1..][i];
      }
    } else if host != "" {
      assert !IsAllowedInHost(host[0]);
    }
  }

  lemma PortOfHostIs(o: Options)
    requires ':' in o.host
    ensures PortOfHost(o.host) == WantedPort(o)
  {
    var i := IndexOf(o.host, ':');
    var rest := o.host[i + 1..];
    BeforeIsIndexOf(o.host, ':');
    BeforeIsIndexOf(rest, ':');
    assert SplitAt(o.host, ':')[1] == SplitAt(rest, ':')[0] == Before(rest, ':');
  }

  /** The host and port that are generated from the options. */
  lemma HostAndPortAre(o: Options)
    ensures var r := HostAndPort(GenerateHost(o), GeneratePort(o));
            if exists i :: 0 <= i < |o.host| && !IsAllowedInHost(o.host[i]) then
              exists i :: 0 <= i < |o.host| && !IsAllowedInHost(o.host[i]) && r == Err(InvalidHost(o.host[i]))
            else if PortsDiffer(o) then r == Err(Conflict)
            else r == Ok(WantedHost(o) + ":" + WantedPort(o))
  {
    ValidateHostIs(o.host);
    BeforeIsIndexOf(o.host, ':');
    if ':' in o.host {
      PortOfHostIs(o);
    }
  }

  /** A fresh connection string for one host: it is reached directly, and soon given up when it is local. */
  predicate IsFresh(r: ConnectionString, h: string, path: Path) {
    && r == ConnectionString(false, "", [h], path, r.params, None)
    && (forall k :: k in r.params ==> k == "directConnection" || k == "serverSelectionTimeoutMS")
    && "directConnection" in r.params && r.params["directConnection"] == "true"
    && ("serverSelectionTimeoutMS" in r.params <==> IsLoopback(h))
    && ("serverSelectionTimeoutMS" in r.params ==> r.params["serverSelectionTimeoutMS"] == "2000")
  }

  lemma FreshWithParameters(h: string, path: Path)
    ensures IsFresh(AddTimeout(AddShellConnectionStringParameters(New(h, path))), h, path)
    ensures AddShellConnectionStringParameters(New(h, path))
         == New(h, path).(params := map["directConnection" := "true"])
  {
    var shell := AddShellConnectionStringParameters(New(h, path));
    LocalHosts(shell);
    assert shell.hosts == [h] && shell.hosts[0] == h;
    NamesDiffer();
  }

  /** Without a specifier and a host list: exactly the host and port that the options ask for. */
  lemma DefaultUri(o: Options)
    requires !o.nodb && o.specifier == Words("") && !GivesHostList(o)
    ensures if exists i :: 0 <= i < |o.host| && !IsAllowedInHost(o.host[i]) then
              exists i :: 0 <= i < |o.host| && !IsAllowedInHost(o.host[i])
                          && GenerateUri(o) == Err(InvalidHost(o.host[i]))
            else if PortsDiffer(o) then GenerateUri(o) == Err(Conflict)
            else
              GenerateUri(o).Ok? && GenerateUri(o).value.Some? &&
              IsFresh(GenerateUri(o).value.value, WantedHost(o) + ":" + WantedPort(o), Plain(""))
  {
    HostAndPortAre(o);
    FreshWithParameters(WantedHost(o) + ":" + WantedPort(o), Plain(""));
  }

  // ---------- words: an address of the legacy shell, or a database ----------

  predicate IsAddressName(s: string) {
    && |s| >= 2 && s[0] != '.' && s[0] != '_' && s[0] != '-'
    && forall i :: 0 <= i < |s| ==>
         'a' <= s[i] <= 'z' || 'A' <= s[i] <= 'Z' || '0' <= s[i] <= '9' || s[i] == '.' || s[i] == '_' || s[i] == '-'
  }

  predicate IsPortText(s: string) {
    s == "" || (|s| > 1 && s[0] == ':' && forall i :: 1 <= i < |s| ==> '0' <= s[i] <= '9')
  }

  /** The code points of white space, line ends and the byte order mark. */
  predicate IsBlank(c: char) {
    var n := c as int;
    || 9 <= n <= 13 || n == 32 || n == 160 || n == 5760 || 8192 <= n <= 8202 || n == 8232 || n == 8233 || n == 8239
    || n == 8287 || n == 12288 || n == 65279
  }

  lemma BlankIsSpace(c: char)
    ensures IsBlank(c) <==> IsSpace(c)
  {
    assert '\U{1680}' as int == 5760 && '\U{2000}' as int == 8192 && '\U{200A}' as int == 8202;
    assert '\U{2028}' as int == 8232 && '\U{2029}' as int == 8233 && '\U{202F}' as int == 8239;
    assert '\U{205F}' as int == 8287 && '\U{3000}' as int == 12288 && '\U{FEFF}' as int == 65279;
    assert '\U{000B}' as int == 11 && '\U{000C}' as int == 12 && '\U{00A0}' as int == 160;
  }

  predicate IsPathText(s: string) {
    s == "" || (s[0] == '/' && forall i :: 1 <= i < |s| ==> !IsBlank(s[i]))
  }

  /** The same text without its first character, if there is one. */
  function Rest(s: string): string {
    if s == "" then "" else s[1..]
  }

  lemma {:induction false} NameRunIs(name: string, rest: string)
    requires forall i :: 0 <= i < |name| ==> IsNameChar(name[i])
    requires rest != "" ==> !IsNameChar(rest[0])
    ensures NameRun(name + rest) == |name|
    decreases |name|
  {
    if name == "" {
      assert name + rest == rest;
    } else {
      assert (name + rest)[0] == name[0] && (name + rest)[1..] == name[1..] + rest;
      NameRunIs(name[1..], rest);
    }
  }

  lemma RestMatches(host: string, port: string, path: string)
    requires IsPathText(path)
    ensures MatchRest(host, port, path) == Some(Parts(host, port, Rest(path)))
  {
    if path != "" {
      forall c | c in path[1..] ensures !IsSpace(c) {
        var i :| 0 <= i < |path| - 1 && path[1..][i] == c;
        assert path[i + 1] == c;
        BlankIsSpace(c);
      }
    }
  }

  /** `name`, `name:port`, `name/path` and `name:port/path` are taken apart where they were put together. */
  lemma AddressMatches(name: string, port: string, path: string)
    requires IsAddressName(name) && IsPortText(port) && IsPathText(path)
    ensures MatchUri(name + (port + path)) == Some(Parts(name, Rest(port), Rest(path)))
  {
    var uri, tail := name + (port + path), port + path;
    assert tail != "" ==> tail[0] == ':' || tail[0] == '/';
    NameRunIs(name, tail);
    assert uri[..|name|] == name && uri[|name|..] == tail;
    RestMatches(name, Rest(port), path);
    if port != "" {
      PortThenPath(port, path);
    } else {
      assert tail == path;
    }
  }

  lemma PortThenPath(port: string, path: string)
    requires IsPortText(port) && port != "" && IsPathText(path)
    ensures var tail := port + path;
            && tail[0] == ':' && Before(tail[1..], '/') == port[1..] && AllDigits(port[1..])
            && tail[1 + |port[1..]|..] == path
  {
    assert (port + path)[1..] == port[1..] + path;
    assert forall i :: 0 <= i < |port| - 1 ==> port[1..][i] == port[i + 1];
    BeforeJoined(port[1..], path, '/');
  }

  lemma {:induction false} NameRunOnly(s: string)
    ensures forall i :: 0 <= i < NameRun(s) ==> IsNameChar(s[i])
    ensures NameRun(s) < |s| ==> !IsNameChar(s[NameRun(s)])
    decreases |s|
  {
    if s != "" && IsNameChar(s[0]) {
      NameRunOnly(s[1..]);
      assert forall i :: 1 <= i < NameRun(s) ==> s[i] == s[1..][i - 1];
    }
  }

  lemma RestMatchesOnly(host: string, port: string, s: string)
    requires MatchRest(host, port, s).Some?
    ensures IsPathText(s)
  {
    if s != "" {
      forall i | 1 <= i < |s| ensures !IsBlank(s[i]) {
        assert s[i] == s[1..][i - 1];
        BlankIsSpace(s[i]);
      }
    }
  }

  /** Nothing else is an address. */
  lemma AddressOnly(uri: string) returns (name: string, port: string, path: string)
    requires MatchUri(uri).Some?
    ensures IsAddressName(name) && IsPortText(port) && IsPathText(path) && uri == name + (port + path)
  {
    var n := NameRun(uri);
    NameRunOnly(uri);
    name := uri[..n];
    var tail := uri[n..];
    assert uri == name + tail;
    if tail != "" && tail[0] == ':' {
      BeforeIsPrefix(tail[1..], '/');
      port, path := PortOnly(name, tail);
    } else {
      port, path := "", tail;
      RestMatchesOnly(name, "", path);
    }
  }

  lemma PortOnly(name: string, tail: string) returns (port: string, path: string)
    requires tail != "" && tail[0] == ':'
    requires var digits := Before(tail[1..], '/');
             && digits != "" && AllDigits(digits) && 1 + |digits| <= |tail|
             && MatchRest(name, digits, tail[1 + |digits|..]).Some?
    ensures IsPortText(port) && IsPathText(path) && tail == port + path
  {
    var digits := Before(tail[1..], '/');
    BeforeIsPrefix(tail[1..], '/');
    port := ":" + digits;
    path := tail[1 + |digits|..];
    RestMatchesOnly(name, digits, path);
    assert forall i :: 1 <= i < |port| ==> port[i] == digits[i - 1];
  }

  ghost predicate IsAddress(text: string) {
    exists name, port, path ::
      IsAddressName(name) && IsPortText(port) && IsPathText(path) && text == name + (port + path)
  }

  lemma PortJoined(name: string, port: string)
    requires IsPortText(port)
    ensures name + ":" + (if Rest(port) == "" then "27017" else Rest(port))
         == name + (if port == "" then ":27017" else port)
  {
    if port == "" {
      assert ":27017" == ":" + "27017";
      Assoc(name, ":", "27017");
    } else {
      assert port == ":" + Rest(port);
      Assoc(name, ":", Rest(port));
    }
  }

  /** What a text that names a host comes to. */
  lemma FromAddress(o: Options, uri: string, host: string, port: string, rest: string)
    requires MatchUri(uri) == Some(Parts(host, port, rest)) && host != ""
    requires '.' in host || port != "" || rest != ""
    ensures FromWords(o, uri) ==
            if o.host != "" || o.port != "" then Err(Conflict)
            else Ok(AddShellConnectionStringParameters(
                      New(host + ":" + (if port == "" then "27017" else port), Encoded(Words(rest)))))
  {}

  /** An address: its host and port are used, with the default port, and must be the only ones. */
  lemma AddressUri(o: Options, name: string, port: string, path: string)
    requires !o.nodb && !GivesHostList(o) && o.specifier == Words(name + (port + path))
    requires IsAddressName(name) && IsPortText(port) && IsPathText(path)
    requires '.' in name || port != "" || |path| > 1
    ensures if o.host != "" || o.port != "" then GenerateUri(o) == Err(Conflict)
            else
              GenerateUri(o).Ok? && GenerateUri(o).value.Some? &&
              IsFresh(GenerateUri(o).value.value, name + (if port == "" then ":27017" else port),
                      Encoded(Words(Rest(path))))
  {
    AddressMatches(name, port, path);
    FromAddress(o, name + (port + path), name, Rest(port), Rest(path));
    PortJoined(name, port);
    FreshWithParameters(name + (if port == "" then ":27017" else port), Encoded(Words(Rest(path))));
  }

  /** What a text that only names a database comes to. */
  lemma FromDatabase(o: Options, uri: string, text: string)
    requires '.' !in text
    requires MatchUri(uri) == Some(Parts(text, "", ""))
             || (MatchUri(uri) == None && uri == text && forall i :: 0 <= i < |uri| ==> !InvalidInDatabase(uri[i]))
    ensures FromWords(o, uri) ==
            match HostAndPort(GenerateHost(o), GeneratePort(o))
            case Err(e) => Err(e)
            case Ok(h) => Ok(AddShellConnectionStringParameters(New(h, Encoded(Words(text)))))
  {}

  /** The options give host and port, and the text is the database. */
  predicate IsDatabaseOf(o: Options, text: string, r: Result<Option<ConnectionString>>) {
    if exists i :: 0 <= i < |o.host| && !IsAllowedInHost(o.host[i]) then
      exists i :: 0 <= i < |o.host| && !IsAllowedInHost(o.host[i]) && r == Err(InvalidHost(o.host[i]))
    else if PortsDiffer(o) then r == Err(Conflict)
    else r.Ok? && r.value.Some? && IsFresh(r.value.value, WantedHost(o) + ":" + WantedPort(o), Encoded(Words(text)))
  }

  lemma DatabaseFrom(o: Options, uri: string, text: string)
    requires !o.nodb && !GivesHostList(o) && uri != "" && o.specifier == Words(uri)
    requires '.' !in text
    requires MatchUri(uri) == Some(Parts(text, "", ""))
             || (MatchUri(uri) == None && uri == text && forall i :: 0 <= i < |uri| ==> !InvalidInDatabase(uri[i]))
    ensures IsDatabaseOf(o, text, GenerateUri(o))
  {
    FromDatabase(o, uri, text);
    HostAndPortAre(o);
    FreshWithParameters(WantedHost(o) + ":" + WantedPort(o), Encoded(Words(text)));
  }

  /** A lone address name without a dot, perhaps with a slash behind it, is the database. */
  lemma NameIsDatabase(o: Options, text: string, slash: string)
    requires !o.nodb && !GivesHostList(o) && (slash == "" || slash == "/") && o.specifier == Words(text + slash)
    requires IsAddressName(text) && '.' !in text
    ensures IsDatabaseOf(o, text, GenerateUri(o))
  {
    AddressMatches(text, "", slash);
    assert text + slash == text + ("" + slash) && Rest(slash) == "";
    DatabaseFrom(o, text + slash, text);
  }

  /** So is any other text with nothing in it that no database name has. */
  lemma TextIsDatabase(o: Options, text: string)
    requires !o.nodb && !GivesHostList(o) && text != "" && o.specifier == Words(text)
    requires !IsAddress(text)
    requires forall i :: 0 <= i < |text| ==> text[i] !in "/\\. \"$"
    ensures IsDatabaseOf(o, text, GenerateUri(o))
  {
    if MatchUri(text).Some? {
      var name, port, rest := AddressOnly(text);
    }
    assert "/\\. \"$" == ['/', '\\', '.', ' ', '"', '$'];
    forall i | 0 <= i < |text| ensures !InvalidInDatabase(text[i]) {}
    assert '.' !in text;
    DatabaseFrom(o, text, text);
  }

  /** Any other text with a character that no database name has is refused. */
  lemma NoUri(o: Options, text: string)
    requires !o.nodb && !GivesHostList(o) && o.specifier == Words(text)
    requires !IsAddress(text) && exists i :: 0 <= i < |text| && text[i] in "/\\. \"$"
    ensures GenerateUri(o) == Err(InvalidUri)
  {
    if MatchUri(text).Some? {
      var name, port, rest := AddressOnly(text);
    }
    var i :| 0 <= i < |text| && text[i] in "/\\. \"$";
    assert InvalidInDatabase(text[i]);
  }

  // ---------- host lists ----------

  /** A host name or address with letters, digits and `._-`, or hexadecimal groups in brackets. */
  predicate IsBareHost(s: string) {
    || (s != "" && forall i :: 0 <= i < |s| ==>
          'a' <= s[i] <= 'z' || 'A' <= s[i] <= 'Z' || '0' <= s[i] <= '9' || s[i] == '.' || s[i] == '_' || s[i] == '-')
    || (|s| > 2 && s[0] == '[' && s[|s| - 1] == ']' && forall i :: 0 < i < |s| - 1 ==>
          '0' <= s[i] <= '9' || 'a' <= s[i] <= 'f' || 'A' <= s[i] <= 'F' || s[i] == ':')
  }

  lemma HostPatternIs(bare: string, port: string)
    requires IsBareHost(bare) && IsPortText(port)
    ensures IsHostPattern(bare + port)
  {
    var h := bare + port;
    assert port != "" ==> AllDigits(port[1..]);
    if bare[0] == '[' {
      var inner := bare[1..|bare| - 1];
      assert h[1..] == inner + ("]" + port);
      BeforeJoined(inner, "]" + port, ']');
      assert forall i :: 0 <= i < |inner| ==> inner[i] == bare[i + 1];
      assert h[|inner| + 2..] == port;
    } else {
      BeforeJoined(bare, port, ':');
      assert h[|bare|..] == port;
    }
  }

  function JoinedBy(parts: seq<string>, c: char): string
    requires parts != []
  {
    if |parts| == 1 then parts[0] else parts[0] + ([c] + JoinedBy(parts[1..], c))
  }

  lemma {:induction false} SplitJoinedBy(parts: seq<string>, c: char)
    requires parts != [] && forall i :: 0 <= i < |parts| ==> c !in parts[i]
    ensures SplitAt(JoinedBy(parts, c), c) == parts
    decreases |parts|
  {
    if |parts| == 1 {
      NotIn(parts[0], c);
    } else {
      var head, later := parts[0], JoinedBy(parts[1..], c);
      SplitJoinedBy(parts[1..], c);
      SplitFirst(head, later, c);
    }
  }

  lemma SplitFirst(head: string, later: string, c: char)
    requires c !in head
    ensures SplitAt(head + ([c] + later), c) == [head] + SplitAt(later, c)
  {
    var s := head + ([c] + later);
    BeforeJoined(head, [c] + later, c);
    assert s[|head| + 1..] == later;
  }

  lemma {:induction false} AllNonEmpty(ss: seq<string>)
    requires forall i :: 0 <= i < |ss| ==> ss[i] != ""
    ensures NonEmpty(ss) == ss
    decreases |ss|
  {
    if ss != [] {
      AllNonEmpty(ss[1..]);
    }
  }

  /** A host of a list: a bare host, and perhaps a colon and digits. */
  ghost predicate IsListedHost(h: string) {
    exists k :: 0 <= k <= |h| && IsBareHost(h[..k]) && IsPortText(h[k..])
  }

  lemma BareHostIsPlain(s: string)
    requires IsBareHost(s)
    ensures s != "" && ',' !in s && '/' !in s
  {}

  lemma PortTextIsPlain(s: string)
    requires IsPortText(s)
    ensures ',' !in s && '/' !in s
  {}

  lemma ListedHostIs(h: string)
    requires IsListedHost(h)
    ensures IsHostPattern(h) && h != "" && ',' !in h && '/' !in h
  {
    var k :| 0 <= k <= |h| && IsBareHost(h[..k]) && IsPortText(h[k..]);
    var bare, port := h[..k], h[k..];
    assert h == bare + port;
    HostPatternIs(bare, port);
    BareHostIsPlain(bare);
    PortTextIsPlain(port);
    InParts(bare, port, ',');
    InParts(bare, port, '/');
  }

  lemma InParts(a: string, b: string, c: char)
    ensures c in a + b <==> c in a || c in b
  {}

  lemma {:induction false} JoinedWithout(parts: seq<string>, c: char, d: char)
    requires parts != [] && c != d && forall i :: 0 <= i < |parts| ==> d !in parts[i]
    ensures d !in JoinedBy(parts, c)
    decreases |parts|
  {
    if |parts| > 1 {
      JoinedWithout(parts[1..], c, d);
    }
  }

  lemma ParsedFrom(value: string, parts: seq<string>, hosts: seq<string>)
    requires value != "" && 1 <= |parts| <= 2 && SplitAt(value, '/') == parts
    requires NonEmpty(SplitAt(parts[|parts| - 1], ',')) == hosts
    requires forall i :: 0 <= i < |hosts| ==> IsHostPattern(hosts[i])
    ensures ParseHostOption(value) == (if |parts| == 2 then parts[0] else "", hosts)
  {}

  lemma ListIsSplit(hosts: seq<string>)
    requires hosts != [] && forall i :: 0 <= i < |hosts| ==> IsListedHost(hosts[i])
    ensures var list := JoinedBy(hosts, ',');
            list != "" && '/' !in list && NonEmpty(SplitAt(list, ',')) == hosts
    ensures forall i :: 0 <= i < |hosts| ==> IsHostPattern(hosts[i])
  {
    forall i | 0 <= i < |hosts|
      ensures IsHostPattern(hosts[i]) && hosts[i] != "" && ',' !in hosts[i] && '/' !in hosts[i]
    {
      ListedHostIs(hosts[i]);
    }
    SplitJoinedBy(hosts, ',');
    JoinedWithout(hosts, ',', '/');
    AllNonEmpty(hosts);
    assert hosts[0] != "";
  }

  /** `<name>/<host>,<host>...` and `<host>,<host>...` are read as what they were made of. */
  lemma HostListIsRead(name: string, hosts: seq<string>)
    requires hosts != [] && '/' !in name && forall i :: 0 <= i < |hosts| ==> IsListedHost(hosts[i])
    ensures ParseHostOption(name + ("/" + JoinedBy(hosts, ','))) == (name, hosts)
    ensures ParseHostOption(JoinedBy(hosts, ',')) == ("", hosts)
  {
    var list := JoinedBy(hosts, ',');
    ListIsSplit(hosts);
    NotIn(list, '/');
    SplitFirst(name, list, '/');
    assert ['/'] + list == "/" + list;
    ParsedFrom(list, [list], hosts);
    ParsedFrom(name + ("/" + list), [name, list], hosts);
  }

  lemma BracketsAreBare(h: string, inner: string)
    requires h == "[" + inner + "]" && inner != "" && forall c :: c in inner ==> IsHexOrColon(c)
    ensures IsBareHost(h)
  {
    forall i | 0 < i < |h| - 1
      ensures '0' <= h[i] <= '9' || 'a' <= h[i] <= 'f' || 'A' <= h[i] <= 'F' || h[i] == ':'
    {
      assert h[i] == inner[i - 1] && inner[i - 1] in inner;
      assert IsHexOrColon(h[i]);
    }
  }

  lemma NameIsBare(name: string)
    requires name != "" && forall c :: c in name ==> IsNameChar(c)
    ensures IsBareHost(name)
  {
    forall i | 0 <= i < |name|
      ensures var c := name[i];
              'a' <= c <= 'z' || 'A' <= c <= 'Z' || '0' <= c <= '9' || c == '.' || c == '_' || c == '-'
    {
      assert name[i] in name;
      assert IsNameChar(name[i]);
    }
  }

  lemma PatternIsListed(h: string)
    requires IsHostPattern(h)
    ensures IsListedHost(h)
  {
    if h != "" && h[0] == '[' {
      var inner := Before(h[1..], ']');
      BeforeIsPrefix(h[1..], ']');
      var k := |inner| + 2;
      assert h[..k] == "[" + inner + "]";
      BracketsAreBare(h[..k], inner);
      SuffixIsPort(h[k..]);
    } else {
      var name := Before(h, ':');
      BeforeIsPrefix(h, ':');
      assert h[..|name|] == name;
      NameIsBare(name);
      SuffixIsPort(h[|name|..]);
    }
  }

  lemma SuffixIsPort(s: string)
    requires IsPortSuffix(s)
    ensures IsPortText(s)
  {
    if s != "" {
      assert forall i :: 1 <= i < |s| ==> s[i] == s[1..][i - 1];
    }
  }

  lemma {:induction false} SplitAtSlash(s: string)
    ensures var parts := SplitAt(s, '/');
            && (|parts| == 1 ==> parts[0] == s && '/' !in s)
            && (|parts| == 2 ==> s == parts[0] + ("/" + parts[1]) && '/' !in parts[0] && '/' !in parts[1])
    decreases |s|
  {
    var head := Before(s, '/');
    BeforeIsPrefix(s, '/');
    if |head| < |s| {
      SplitAtSlash(s[|head| + 1..]);
      assert s == head + ("/" + s[|head| + 1..]);
    } else {
      assert s == head;
    }
  }

  /** Nothing else is read as a host list: one slash at most, and hosts only. */
  lemma HostListOnly(value: string)
    ensures var (name, hosts) := ParseHostOption(value);
            && (forall i :: 0 <= i < |hosts| ==> IsListedHost(hosts[i]))
            && (name != "" || hosts != [] ==>
                  exists list :: '/' !in list && hosts == NonEmpty(SplitAt(list, ','))
                                 && (value == name + ("/" + list) || (name == "" && value == list)))
            && '/' !in name
  {
    var parts := SplitAt(value, '/');
    SplitAtSlash(value);
    var list := parts[|parts| - 1];
    var hosts := NonEmpty(SplitAt(list, ','));
    if value != "" && |parts| <= 2 && forall i :: 0 <= i < |hosts| ==> IsHostPattern(hosts[i]) {
      forall i | 0 <= i < |hosts| ensures IsListedHost(hosts[i]) {
        PatternIsListed(hosts[i]);
      }
      assert '/' !in list;
    }
  }

  // ---------- what becomes of the URI that was given ----------

  /** The host option decides before the connection specifier is looked at. */
  predicate GivesHostList(o: Options) {
    ParseHostOption(o.host).0 != "" || |ParseHostOption(o.host).1| > 1
  }

  predicate KeepsParameters(cs: ConnectionString, r: ConnectionString) {
    forall k :: k in cs.params ==> k in r.params && r.params[k] == cs.params[k]
  }

  /** Scheme, credentials, hosts, path and every parameter are as they were given. */
  predicate KeepsUri(cs: ConnectionString, r: ConnectionString) {
    r == cs.(params := r.params) && KeepsParameters(cs, r)
  }

  /** The same, but perhaps for the path. */
  predicate KeepsAllButPath(cs: ConnectionString, r: ConnectionString) {
    r == cs.(path := r.path, params := r.params) && KeepsParameters(cs, r)
  }

  /** The parameters that may be added, each under exactly its own condition. */
  predicate AddsWhatIsMissing(cs: ConnectionString, r: ConnectionString) {
    && (forall k :: k in r.params && k !in cs.params ==> k == "directConnection" || k == "serverSelectionTimeoutMS")
    && ("directConnection" in r.params <==>
          "directConnection" in cs.params ||
          (!cs.srv && |cs.hosts| == 1 && "replicaSet" !in cs.params && "loadBalanced" !in cs.params))
    && ("serverSelectionTimeoutMS" in r.params <==> "serverSelectionTimeoutMS" in cs.params || AllLocal(cs))
  }

  /** All that is left of a specifier is the path: hosts and parameters come from the host option. */
  predicate IsMadeOfHostList(o: Options, r: ConnectionString) {
    var (replSetName, hosts) := ParseHostOption(o.host);
    && ValidateHostSeedList(hosts, o.port).Ok?
    && r == ConnectionString(false, "", ValidateHostSeedList(hosts, o.port).value, Encoded(o.specifier), r.params, None)
    && (forall k :: k in r.params ==> k == "replicaSet" || k == "serverSelectionTimeoutMS")
    && ("replicaSet" in r.params <==> replSetName != "")
    && ("replicaSet" in r.params ==> r.params["replicaSet"] == replSetName)
    && ("serverSelectionTimeoutMS" in r.params <==> AllLocal(r))
    && ("serverSelectionTimeoutMS" in r.params ==> r.params["serverSelectionTimeoutMS"] == "2000")
  }

  lemma UriIsKept(o: Options)
    requires o.specifier.Uri? && !GivesHostList(o) && GenerateUri(o).Ok? && GenerateUri(o).value.Some?
    ensures var r := GenerateUri(o).value.value; KeepsUri(o.specifier.cs, r) && AddsWhatIsMissing(o.specifier.cs, r)
  {
    var cs := o.specifier.cs;
    var shell := if cs.srv then cs else AddShellConnectionStringParameters(cs);
    assert GenerateUri(o).value.value == AddTimeout(shell);
    LocalHosts(shell);
    NamesDiffer();
  }

  lemma HostListReplacesUri(o: Options)
    requires GivesHostList(o) && GenerateUri(o).Ok? && GenerateUri(o).value.Some?
    ensures IsMadeOfHostList(o, GenerateUri(o).value.value)
  {
    var (replSetName, hosts) := ParseHostOption(o.host);
    ValidatedOneByOne(hosts, o.port);
    LocalHosts(GenerateUri(o).value.value);
    NamesDiffer();
  }

  /** A URI is not its own path: encoded it is longer than any part of it. */
  lemma PathIsShorter(cs: ConnectionString)
    ensures cs.path != Encoded(Uri(cs))
  {}

  /**
   What the user's URI becomes, with any other options beside it. It is kept, and only missing
   parameters are added, exactly when the host option gives no host list; otherwise its encoded text
   is the path, and nothing else is left of it.
   */
  lemma UserParametersAreKept(o: Options)
    requires o.specifier.Uri? && GenerateUri(o).Ok? && GenerateUri(o).value.Some?
    ensures var cs, r := o.specifier.cs, GenerateUri(o).value.value;
            && (KeepsUri(cs, r) <==> !GivesHostList(o))
            && (if GivesHostList(o) then IsMadeOfHostList(o, r) else AddsWhatIsMissing(cs, r))
  {
    PathIsShorter(o.specifier.cs);
    if GivesHostList(o) {
      HostListReplacesUri(o);
    } else {
      UriIsKept(o);
    }
  }

  /** There is no URI exactly with `--nodb`. */
  lemma NoUriIffNoDb(o: Options)
    ensures GenerateUri(o) == Ok(None) <==> o.nodb
  {}

  /** Exactly when a URI is refused, and why, when the host option gives no host list. */
  lemma UriIsRefusedIff(o: Options)
    requires !o.nodb && o.specifier.Uri? && !GivesHostList(o)
    ensures var cs := o.specifier.cs;
            if cs.hosts == [] then GenerateUri(o) == Err(Malformed)
            else if o.host != "" || o.port != "" then GenerateUri(o) == Err(Conflict)
            else if o.gssapiServiceName != "" && cs.properties.Some? && "SERVICE_NAME" in cs.properties.value
                    && cs.properties.value["SERVICE_NAME"] != o.gssapiServiceName
            then GenerateUri(o) == Err(DivergingServiceName)
            else if "gssapiServiceName" in cs.params then GenerateUri(o) == Err(ServiceNameUnsupported)
            else GenerateUri(o).Ok? && GenerateUri(o).value.Some?
  {}

  /** This parameter is one that the host list brings along, with this value. */
  predicate IsBrought(o: Options, list: seq<string>, k: string, v: string) {
    || (k == "replicaSet" && v != "" && v == ParseHostOption(o.host).0)
    || (k == "serverSelectionTimeoutMS" && v == "2000" && forall i :: 0 <= i < |list| ==> IsLoopback(list[i]))
  }

  /** Leaving the path aside: a host list keeps the URI exactly when it would have said the same. */
  lemma HostListKeepsIffSame(o: Options)
    requires o.specifier.Uri? && GivesHostList(o) && GenerateUri(o).Ok? && GenerateUri(o).value.Some?
    ensures var cs, r := o.specifier.cs, GenerateUri(o).value.value;
            var list := ValidateHostSeedList(ParseHostOption(o.host).1, o.port);
            && list.Ok?
            && (KeepsParameters(cs, r) <==> forall k :: k in cs.params ==> IsBrought(o, list.value, k, cs.params[k]))
            && (KeepsAllButPath(cs, r) <==>
                  && !cs.srv && cs.auth == "" && cs.properties == None && cs.hosts == list.value
                  && forall k :: k in cs.params ==> IsBrought(o, list.value, k, cs.params[k]))
  {
    HostListReplacesUri(o);
    NamesDiffer();
    var cs, r := o.specifier.cs, GenerateUri(o).value.value;
    forall k | k in cs.params
      ensures k in r.params && r.params[k] == cs.params[k] <==> IsBrought(o, r.hosts, k, cs.params[k])
    {}
  }

  lemma ParsesOneHost()
    ensures ParseHostOption("r/h") == ("r", ["h"])
  {
    NotIn("h", '/');
    NotIn("h", ',');
    NotIn("h", ':');
    assert "r/h" == "r" + "/" + "h" && "r/h"[1..] == "/h" && "r/h"[2..] == "h";
    assert Before("r/h", '/') == "r" + Before("/h", '/') == "r";
    assert SplitAt("r/h", '/') == ["r"] + SplitAt("h", '/') == ["r", "h"];
    assert NonEmpty(["h"]) == ["h"] + NonEmpty([]) == ["h"];
    assert IsHostPattern("h");
  }

  lemma {:induction false} NotIn(s: string, c: char)
    requires c !in s
    ensures Before(s, c) == s && SplitAt(s, c) == [s]
    decreases |s|
  {
    BeforeIsPrefix(s, c);
    assert |Before(s, c)| == |s|;
  }

  lemma OneHostStays()
    ensures ValidateHostSeedList(["h"], "") == Ok(["h"])
  {
    assert SplitHostPort("h") == HostPort("h", None) && Normalize("h", "") == Ok("h");
    OneHost("h", "");
  }

  /** A URI given together with `--host r/h`: its hosts and all its parameters are gone. */
  lemma UriIsLostBehindHostList(cs: ConnectionString)
    ensures var o := Options(false, Uri(cs), "r/h", "", "");
            && GenerateUri(o).Ok? && GenerateUri(o).value.Some?
            && var r := GenerateUri(o).value.value;
            && r.hosts == ["h"] && r.path == Encoded(Uri(cs)) && r.params == map["replicaSet" := "r"]
  {
    var o := Options(false, Uri(cs), "r/h", "", "");
    ParsesOneHost();
    OneHostStays();
    HostListIsValidated(o);
    HostListReplacesUri(o);
    var r := GenerateUri(o).value.value;
    assert !IsLoopback("h") && r.hosts[0] == "h";
    assert r.params == map["replicaSet" := "r"];
  }

  /** `--host rs/`: a URI is generated, and rejected when it is given back. */
  lemma NoHostsComeBackRejected()
    ensures var o := Options(false, Words(""), "rs/", "", "");
            && GenerateUri(o).Ok? && GenerateUri(o).value.Some?
            && GenerateUri(o).value.value.hosts == []
            && GenerateUri(Only(GenerateUri(o).value.value)) == Err(Malformed)
  {
    var o := Options(false, Words(""), "rs/", "", "");
    NotIn("", '/');
    NotIn("", ',');
    assert "rs/"[1..] == "s/" && "s/"[1..] == "/" && "rs/"[3..] == "";
    assert Before("rs/", '/') == "r" + Before("s/", '/') && Before("s/", '/') == "s" + Before("/", '/') == "s";
    assert "r" + "s" == "rs";
    assert SplitAt("rs/", '/') == ["rs"] + SplitAt("", '/') == ["rs", ""];
    assert NonEmpty([""]) == NonEmpty([]) == [];
    assert ParseHostOption("rs/") == ("rs", []);
    HostListIsValidated(o);
    GenerateUriIsFixedPoint(o);
  }

  /**
   A host list fails exactly when its ports do, and keeps every host, and a replica set its name. The
   hosts pass validation again under exactly the condition of `IdempotentIffNumericPort`.
   */
  lemma HostListIsValidated(o: Options)
    requires !o.nodb
    requires var (replSetName, hosts) := ParseHostOption(o.host); replSetName != "" || |hosts| > 1
    ensures var (replSetName, hosts) := ParseHostOption(o.host); var list := ValidateHostSeedList(hosts, o.port);
            && (GenerateUri(o).Ok? <==> list.Ok?)
            && (list.Ok? ==>
                  var r := GenerateUri(o).value.value;
                  && r.hosts == list.value
                  && (ValidateHostSeedList(r.hosts, o.port) == list <==>
                        AllDigits(o.port) || forall i :: 0 <= i < |hosts| ==>
                          !OneLine(o.port) && SplitHostPort(hosts[i]).host == "undefined")
                  && (replSetName != "" ==> "replicaSet" in r.params && r.params["replicaSet"] == replSetName)
                  && "directConnection" !in r.params)
  {
    var (replSetName, hosts) := ParseHostOption(o.host);
    var list := ValidateHostSeedList(hosts, o.port);
    if list.Ok? {
      IdempotentIffNumericPort(hosts, o.port);
      ValidatedOneByOne(hosts, o.port);
      NamesDiffer();
    }
  }
}

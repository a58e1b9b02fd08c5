/**
 How packages/arg-parser/src/arg-mapper.ts folds command line options into connection information.
 Objects are maps, a connection string is the object of its parts, and printing one and parsing it
 again is the identity.
 */
module ArgMapper {
  import opened Prelude
  import opened Folds

  /** Property names. The same name can occur at several places; `Other` is any name not written here. */
  datatype Field =
    | DriverOptions | ConnectionString | Params | Hosts
    | ServerApi | DeprecationErrors | Strict | Version
    | AutoEncryption | KeyVaultNamespace | KmsProviders | Aws | AccessKeyId | SecretAccessKey | SessionToken
    | ExtraOptions | CryptSharedLibPath
    | AuthMechanismProperties | AwsSessionToken | ServiceName | ServiceRealm | CanonicalizeHostName | AllowedHosts
    | AuthSource | AuthMechanism | RetryWrites | Tls | TlsAllowInvalidCertificates | TlsAllowInvalidHostnames
    | TlsCAFile | TlsCRLFile | TlsCertificateKeyFile | TlsCertificateKeyFilePassword
    | Username | Password
    | Oidc | RedirectURI | AllowedFlows | PassIdTokenAsAccessToken | SkipNonceInAuthCodeRequest | OpenBrowser
    | Command | Other(name: string)

  /** `Encoded` is the result of `encodeURIComponent`. */
  datatype Value =
    | Undefined
    | Text(s: string)
    | Bool(b: bool)
    | Encoded(s: string)
    | List(items: seq<string>)
    | Object(m: map<Field, Value>)

  datatype CliOption =
    | ApiDeprecationErrors | ApiStrict | ApiVersion
    | AwsAccessKeyId | AwsSecretAccessKey | AwsSessionTokenOption | AwsIamSessionToken
    | CsfleLibraryPath | CryptSharedLibPathOption
    | GssapiServiceName | SspiRealmOverride | SspiHostnameCanonicalization
    | AuthenticationDatabase | AuthenticationMechanism | KeyVaultNamespaceOption | PasswordOption | RetryWritesOption
    | TlsOption | TlsAllowInvalidCertificatesOption | TlsAllowInvalidHostnamesOption | TlsCAFileOption
    | TlsCRLFileOption | TlsCertificateKeyFileOption | TlsCertificateKeyFilePasswordOption | UsernameOption
    | OidcRedirectUri | OidcTrustedEndpoint | OidcFlows | OidcIdTokenAsAccessToken | OidcNoNonce | Browser
    | Unmapped(name: string)

  type Path = seq<Field>

  // ---------- nested updates ----------

  /** `{ ...v }`, with the one property that may be a string spelled out: `serverApi`. */
  function AsObject(v: Value): map<Field, Value> {
    match v
    case Object(m) => m
    case Text(s) => map[Version := Text(s)]
    case _ => map[]
  }

  function Get(m: map<Field, Value>, k: Field): Value {
    if k in m then m[k] else Undefined
  }

  /** The property `k` becomes `v`, or goes away when `v` is `None`. */
  function Update(m: map<Field, Value>, k: Field, v: Option<Value>): map<Field, Value> {
    if v.None? then m - {k} else m[k := v.value]
  }

  /** What a setter leaves at a property: URL parameters are deleted rather than emptied. */
  function Leaf(v: Value, deletes: bool): Option<Value> {
    if deletes && (v == Undefined || v == Text("")) then None else Some(v)
  }

  function Write(m: map<Field, Value>, path: Path, v: Value, deletes: bool): map<Field, Value>
    requires path != []
    decreases |path|, 1
  {
    Update(m, path[0], Written(Get(m, path[0]), path[1..], v, deletes))
  }

  /** The new value of a property of which only the old value matters. */
  function Written(was: Value, path: Path, v: Value, deletes: bool): Option<Value>
    decreases |path|, 2
  {
    if path == [] then Leaf(v, deletes) else Some(Object(Write(AsObject(was), path, v, deletes)))
  }

  function Read(m: map<Field, Value>, path: Path): Value
    requires path != []
    decreases |path|
  {
    if |path| == 1 then Get(m, path[0]) else Read(AsObject(Get(m, path[0])), path[1..])
  }

  /** Neither path leads into the other. */
  predicate Diverge(p: Path, q: Path) {
    !(p <= q) && !(q <= p)
  }

  /** Writes at diverging paths commute, whatever was there before. */
  lemma {:induction false} WritesCommute(m: map<Field, Value>, p: Path, v: Value, d: bool, q: Path, w: Value, e: bool)
    requires p != [] && q != [] && Diverge(p, q)
    ensures Write(Write(m, p, v, d), q, w, e) == Write(Write(m, q, w, e), p, v, d)
    decreases |p|
  {
    if p[0] == q[0] {
      assert p == [p[0]] + p[1..] && q == [q[0]] + q[1..];
      WritesCommute(AsObject(Get(m, p[0])), p[1..], v, d, q[1..], w, e);
      WriteTwice(m, p, v, d, q, w, e);
      WriteTwice(m, q, w, e, p, v, d);
    } else {
      UpdatesCommute(m, p[0], Written(Get(m, p[0]), p[1..], v, d), q[0], Written(Get(m, q[0]), q[1..], w, e));
    }
  }

  /** Two writes below one property are two writes to the object there. */
  lemma WriteTwice(m: map<Field, Value>, p: Path, v: Value, d: bool, q: Path, w: Value, e: bool)
    requires |p| > 1 && |q| > 1 && p[0] == q[0]
    ensures var inner := AsObject(Get(m, p[0]));
            Write(Write(m, p, v, d), q, w, e)
            == Update(m, p[0], Some(Object(Write(Write(inner, p[1..], v, d), q[1..], w, e))))
  {
    var first := Write(AsObject(Get(m, p[0])), p[1..], v, d);
    UpdateTwice(m, p[0], Object(first), Write(first, q[1..], w, e));
  }

  lemma UpdatesCommute(m: map<Field, Value>, k: Field, v: Option<Value>, l: Field, w: Option<Value>)
    requires k != l
    ensures Update(Update(m, k, v), l, w) == Update(Update(m, l, w), k, v)
    ensures Get(Update(m, k, v), l) == Get(m, l) && Get(Update(m, l, w), k) == Get(m, k)
  {}

  lemma UpdateTwice(m: map<Field, Value>, k: Field, v: Value, w: map<Field, Value>)
    ensures Get(Update(m, k, Some(v)), k) == v
    ensures Update(Update(m, k, Some(v)), k, Some(Object(w))) == Update(m, k, Some(Object(w)))
  {}

  /** A write is seen at its path, and not where another path leads. */
  lemma {:induction false} ReadAfterWrite(m: map<Field, Value>, p: Path, v: Value)
    requires p != []
    ensures Read(Write(m, p, v, false), p) == v
    decreases |p|
  {
    if |p| > 1 {
      ReadAfterWrite(AsObject(Get(m, p[0])), p[1..], v);
    }
  }

  lemma ReadInside(m: map<Field, Value>, p: Path, v: Value, d: bool, q: Path)
    requires |p| > 1 && |q| > 1 && p[0] == q[0]
    ensures Read(Write(m, p, v, d), q) == Read(Write(AsObject(Get(m, p[0])), p[1..], v, d), q[1..])
    ensures Read(m, q) == Read(AsObject(Get(m, p[0])), q[1..])
  {}

  lemma {:induction false} ReadElsewhere(m: map<Field, Value>, p: Path, v: Value, d: bool, q: Path)
    requires p != [] && q != [] && Diverge(p, q)
    ensures Read(Write(m, p, v, d), q) == Read(m, q)
    decreases |p|
  {
    if p[0] == q[0] {
      assert p == [p[0]] + p[1..] && q == [q[0]] + q[1..];
      ReadElsewhere(AsObject(Get(m, p[0])), p[1..], v, d, q[1..]);
      ReadInside(m, p, v, d, q);
    }
  }

  // ---------- the table of options ----------

  const HOSTS: Path := [ConnectionString, Hosts]

  /** The property a setter writes. */
  function LastField(option: CliOption): Field {
    match option
    case ApiDeprecationErrors => DeprecationErrors
    case ApiStrict => Strict
    case ApiVersion => Version
    case AwsAccessKeyId => AccessKeyId
    case AwsSecretAccessKey => SecretAccessKey
    case AwsSessionTokenOption => SessionToken
    case AwsIamSessionToken => AwsSessionToken
    case CsfleLibraryPath => CryptSharedLibPath
    case CryptSharedLibPathOption => CryptSharedLibPath
    case GssapiServiceName => ServiceName
    case SspiRealmOverride => ServiceRealm
    case SspiHostnameCanonicalization => CanonicalizeHostName
    case AuthenticationDatabase => AuthSource
    case AuthenticationMechanism => AuthMechanism
    case KeyVaultNamespaceOption => KeyVaultNamespace
    case PasswordOption => Password
    case RetryWritesOption => RetryWrites
    case TlsOption => Tls
    case TlsAllowInvalidCertificatesOption => TlsAllowInvalidCertificates
    case TlsAllowInvalidHostnamesOption => TlsAllowInvalidHostnames
    case TlsCAFileOption => TlsCAFile
    case TlsCRLFileOption => TlsCRLFile
    case TlsCertificateKeyFileOption => TlsCertificateKeyFile
    case TlsCertificateKeyFilePasswordOption => TlsCertificateKeyFilePassword
    case UsernameOption => Username
    case OidcRedirectUri => RedirectURI
    case OidcTrustedEndpoint => AllowedHosts
    case OidcFlows => AllowedFlows
    case OidcIdTokenAsAccessToken => PassIdTokenAsAccessToken
    case OidcNoNonce => SkipNonceInAuthCodeRequest
    case Browser => OpenBrowser
    case Unmapped(name) => Other(name)
  }

  /** The object that has this property. */
  function Parent(option: CliOption): Path {
    match option
    case ApiDeprecationErrors | ApiStrict | ApiVersion => [DriverOptions, ServerApi]
    case AwsAccessKeyId | AwsSecretAccessKey | AwsSessionTokenOption =>
      [DriverOptions, AutoEncryption, KmsProviders, Aws]
    case CsfleLibraryPath | CryptSharedLibPathOption => [DriverOptions, AutoEncryption, ExtraOptions]
    case KeyVaultNamespaceOption => [DriverOptions, AutoEncryption]
    case AwsIamSessionToken | GssapiServiceName | SspiRealmOverride | SspiHostnameCanonicalization =>
      [ConnectionString, Params, AuthMechanismProperties]
    case PasswordOption | UsernameOption => [ConnectionString]
    case OidcTrustedEndpoint => [DriverOptions, AuthMechanismProperties]
    case OidcRedirectUri | OidcFlows | OidcIdTokenAsAccessToken | OidcNoNonce | Browser => [DriverOptions, Oidc]
    case Unmapped(_) => []
    case _ => [ConnectionString, Params]
  }

  /** Where the setter of an option writes. */
  function Target(option: CliOption): Path {
    Parent(option) + [LastField(option)]
  }

  /** URL parameters and authentication mechanism properties in the URL are deleted when emptied. */
  predicate Deletes(option: CliOption) {
    |Target(option)| >= 3 && Target(option)[..2] == [ConnectionString, Params]
  }

  /** `v.split(',').filter(Boolean)` */
  function SplitFlows(s: string, word: string): seq<string>
    decreases |s|
  {
    if s == "" then (if word == "" then [] else [word])
    else if s[0] == ',' then (if word == "" then [] else [word]) + SplitFlows(s[1..], "")
    else SplitFlows(s[1..], word + [s[0]])
  }

  predicate Truthy(v: Value) {
    v != Undefined && v != Bool(false) && v != Text("")
  }

  /** What the setter of an option writes; `allowed` is what `matchingAllowedHosts` makes of the hosts. */
  function NewValue(allowed: Value -> Value, hosts: Value, option: CliOption, v: Value): Value {
    match option
    case SspiHostnameCanonicalization =>
      if v == Text("") then Undefined else if v == Text("true") then Bool(true)
      else if v == Text("false") then Bool(false) else v
    case PasswordOption => if v.Text? then Encoded(v.s) else v
    case UsernameOption => if v.Text? then Encoded(v.s) else v
    case OidcTrustedEndpoint => if Truthy(v) then allowed(hosts) else Undefined
    case OidcFlows => if v.Text? then List(SplitFlows(v.s, "")) else v
    case Browser => if v.Text? then Object(map[Command := v]) else v
    case _ => v
  }

  /** `MAPPINGS[key]?.(i, value) ?? i` */
  function MapOption(allowed: Value -> Value, i: map<Field, Value>, option: CliOption, v: Value): map<Field, Value> {
    if option.Unmapped? then i
    else Write(i, Target(option), NewValue(allowed, Read(i, HOSTS), option, v), Deletes(option))
  }

  /** One turn of the loop: options without a value are skipped. */
  function Apply(allowed: Value -> Value, i: map<Field, Value>, option: (CliOption, Value)): map<Field, Value> {
    if option.1 == Undefined || option.1 == Text("") then i else MapOption(allowed, i, option.0, option.1)
  }

  function Step(allowed: Value -> Value): (map<Field, Value>, (CliOption, Value)) -> map<Field, Value> {
    (i, option) => Apply(allowed, i, option)
  }

  function MapAll(allowed: Value -> Value, i: map<Field, Value>, options: seq<(CliOption, Value)>): map<Field, Value> {
    Fold(Step(allowed), i, options)
  }

  method MapCliToDriver(allowed: Value -> Value, options: seq<(CliOption, Value)>, info: map<Field, Value>)
      returns (i: map<Field, Value>)
    ensures i == MapAll(allowed, info, options)
  {
    i := info;
    for k := 0 to |options|
      invariant MapAll(allowed, i, options[k..]) == MapAll(allowed, info, options)
    {
      var (option, v) := options[k];
      assert options[k..][0] == options[k] && options[k..][1..] == options[k + 1..];
      if v != Undefined && v != Text("") {
        i := MapOption(allowed, i, option, v);
      }
    }
    assert options[|options|..] == [];
  }

  // ---------- order independence ----------

  /** The last field of a target belongs to one option, or to the two names of one library path. */
  predicate SameTarget(a: CliOption, b: CliOption) {
    || a == b
    || (a == CsfleLibraryPath && b == CryptSharedLibPathOption)
    || (b == CsfleLibraryPath && a == CryptSharedLibPathOption)
  }

  predicate IsInterior(k: Field) {
    k == DriverOptions || k == ConnectionString || k == Params || k == ServerApi || k == AutoEncryption
    || k == KmsProviders || k == Aws || k == ExtraOptions || k == AuthMechanismProperties || k == Oidc
  }

  lemma LastIsNotInterior(option: CliOption)
    requires !option.Unmapped?
    ensures !IsInterior(LastField(option)) && LastField(option) != Hosts
  {}

  lemma ParentIsInterior(option: CliOption)
    ensures forall i :: 0 <= i < |Parent(option)| ==> IsInterior(Parent(option)[i])
  {}

  lemma TargetShape(option: CliOption)
    requires !option.Unmapped?
    ensures |Target(option)| >= 2 && Target(option)[|Target(option)| - 1] == LastField(option)
    ensures !IsInterior(LastField(option)) && LastField(option) != Hosts
    ensures forall i :: 0 <= i < |Target(option)| - 1 ==> IsInterior(Target(option)[i])
  {
    LastIsNotInterior(option);
    ParentIsInterior(option);
  }

  /** Which option a last field belongs to. */
  function Owner(k: Field): Option<CliOption> {
    match k
    case DeprecationErrors => Some(ApiDeprecationErrors)
    case Strict => Some(ApiStrict)
    case Version => Some(ApiVersion)
    case AccessKeyId => Some(AwsAccessKeyId)
    case SecretAccessKey => Some(AwsSecretAccessKey)
    case SessionToken => Some(AwsSessionTokenOption)
    case AwsSessionToken => Some(AwsIamSessionToken)
    case CryptSharedLibPath => Some(CryptSharedLibPathOption)
    case ServiceName => Some(GssapiServiceName)
    case ServiceRealm => Some(SspiRealmOverride)
    case CanonicalizeHostName => Some(SspiHostnameCanonicalization)
    case AuthSource => Some(AuthenticationDatabase)
    case AuthMechanism => Some(AuthenticationMechanism)
    case KeyVaultNamespace => Some(KeyVaultNamespaceOption)
    case Password => Some(PasswordOption)
    case RetryWrites => Some(RetryWritesOption)
    case Tls => Some(TlsOption)
    case TlsAllowInvalidCertificates => Some(TlsAllowInvalidCertificatesOption)
    case TlsAllowInvalidHostnames => Some(TlsAllowInvalidHostnamesOption)
    case TlsCAFile => Some(TlsCAFileOption)
    case TlsCRLFile => Some(TlsCRLFileOption)
    case TlsCertificateKeyFile => Some(TlsCertificateKeyFileOption)
    case TlsCertificateKeyFilePassword => Some(TlsCertificateKeyFilePasswordOption)
    case Username => Some(UsernameOption)
    case RedirectURI => Some(OidcRedirectUri)
    case AllowedHosts => Some(OidcTrustedEndpoint)
    case AllowedFlows => Some(OidcFlows)
    case PassIdTokenAsAccessToken => Some(OidcIdTokenAsAccessToken)
    case SkipNonceInAuthCodeRequest => Some(OidcNoNonce)
    case OpenBrowser => Some(Browser)
    case _ => None
  }

  lemma OwnerOfLast(option: CliOption)
    requires !option.Unmapped?
    ensures Owner(LastField(option))
         == Some(if option == CsfleLibraryPath then CryptSharedLibPathOption else option)
  {}

  lemma LeafIdentifies(a: CliOption, b: CliOption)
    requires !a.Unmapped? && !b.Unmapped? && LastField(a) == LastField(b)
    ensures SameTarget(a, b)
  {
    OwnerOfLast(a);
    OwnerOfLast(b);
  }

  lemma TargetsDiverge(a: CliOption, b: CliOption)
    requires !a.Unmapped? && !b.Unmapped? && !SameTarget(a, b)
    ensures Diverge(Target(a), Target(b))
  {
    NotPrefix(a, b);
    NotPrefix(b, a);
  }

  lemma NotPrefix(a: CliOption, b: CliOption)
    requires !a.Unmapped? && !b.Unmapped? && !SameTarget(a, b)
    ensures !(Target(a) <= Target(b))
  {
    TargetShape(a);
    TargetShape(b);
    var p, q := Target(a), Target(b);
    if p <= q {
      assert q[|p| - 1] == LastField(a);
      if |p| == |q| {
        LeafIdentifies(a, b);
      }
    }
  }

  lemma TargetMissesHosts(option: CliOption)
    requires !option.Unmapped?
    ensures Diverge(Target(option), HOSTS)
  {
    TargetShape(option);
    var p := Target(option);
    assert |p| >= 2 && p[|p| - 1] != Hosts;
    assert |p| > 2 ==> IsInterior(p[1]);
  }

  /** No setter touches the hosts, so it does not matter when `oidcTrustedEndpoint` reads them. */
  lemma HostsStay(allowed: Value -> Value, i: map<Field, Value>, option: CliOption, v: Value)
    ensures Read(MapOption(allowed, i, option, v), HOSTS) == Read(i, HOSTS)
  {
    if !option.Unmapped? {
      TargetMissesHosts(option);
      ReadElsewhere(i, Target(option), NewValue(allowed, Read(i, HOSTS), option, v), Deletes(option), HOSTS);
    }
  }

  predicate Skipped(o: (CliOption, Value)) {
    o.1 == Undefined || o.1 == Text("") || o.0.Unmapped?
  }

  /** The two names of the library path are both given, with different values. */
  predicate Conflict(a: (CliOption, Value), b: (CliOption, Value)) {
    !Skipped(a) && !Skipped(b) && a.0 != b.0 && SameTarget(a.0, b.0) && a.1 != b.1
  }

  lemma MappedCommute(allowed: Value -> Value, i: map<Field, Value>, a: (CliOption, Value), b: (CliOption, Value))
    requires !a.0.Unmapped? && !b.0.Unmapped? && !SameTarget(a.0, b.0)
    ensures MapOption(allowed, MapOption(allowed, i, a.0, a.1), b.0, b.1)
         == MapOption(allowed, MapOption(allowed, i, b.0, b.1), a.0, a.1)
  {
    HostsStay(allowed, i, a.0, a.1);
    HostsStay(allowed, i, b.0, b.1);
    TargetsDiverge(a.0, b.0);
    var hosts := Read(i, HOSTS);
    WritesCommute(i, Target(a.0), NewValue(allowed, hosts, a.0, a.1), Deletes(a.0),
                  Target(b.0), NewValue(allowed, hosts, b.0, b.1), Deletes(b.0));
  }

  lemma SameLibrary(allowed: Value -> Value, i: map<Field, Value>, a: (CliOption, Value), b: (CliOption, Value))
    requires a.0 != b.0 && SameTarget(a.0, b.0) && a.1 == b.1
    ensures Apply(allowed, i, a) == Apply(allowed, i, b)
  {}

  lemma AppliesCommute(allowed: Value -> Value, i: map<Field, Value>, a: (CliOption, Value), b: (CliOption, Value))
    requires !Conflict(a, b) && (a.0 == b.0 ==> a == b)
    ensures Apply(allowed, Apply(allowed, i, a), b) == Apply(allowed, Apply(allowed, i, b), a)
  {
    if !Skipped(a) && !Skipped(b) && a.0 != b.0 {
      if SameTarget(a.0, b.0) {
        SameLibrary(allowed, i, a, b);
      } else {
        MappedCommute(allowed, i, a, b);
      }
    }
  }

  lemma OptionsCommute(allowed: Value -> Value, a: (CliOption, Value), b: (CliOption, Value))
    requires !Conflict(a, b) && (a.0 == b.0 ==> a == b)
    ensures Commute(Step(allowed), a, b)
  {
    forall i ensures Apply(allowed, Apply(allowed, i, a), b) == Apply(allowed, Apply(allowed, i, b), a) {
      AppliesCommute(allowed, i, a, b);
    }
  }

  /** The keys of an object are distinct. */
  predicate DistinctKeys(options: seq<(CliOption, Value)>) {
    forall i, j :: 0 <= i < j < |options| ==> options[i].0 != options[j].0
  }

  ghost predicate HasConflict(options: seq<(CliOption, Value)>) {
    exists a, b :: a in options && b in options && Conflict(a, b)
  }

  lemma OrderDoesNotMatter(allowed: Value -> Value, i: map<Field, Value>, xs: seq<(CliOption, Value)>,
                           ys: seq<(CliOption, Value)>)
    requires DistinctKeys(xs) && multiset(xs) == multiset(ys) && !HasConflict(xs)
    ensures MapAll(allowed, i, xs) == MapAll(allowed, i, ys)
  {
    forall a, b | a in xs && b in xs ensures Commute(Step(allowed), a, b) {
      OptionsCommute(allowed, a, b);
    }
    FoldPermutation(Step(allowed), i, xs, ys);
  }

  const LIBRARY: Path := [DriverOptions, AutoEncryption, ExtraOptions, CryptSharedLibPath]

  lemma LastLibraryWins(allowed: Value -> Value, i: map<Field, Value>, rest: seq<(CliOption, Value)>,
                        a: (CliOption, Value))
    requires !Skipped(a) && (a.0 == CsfleLibraryPath || a.0 == CryptSharedLibPathOption)
    ensures Read(MapAll(allowed, i, rest + [a]), LIBRARY) == a.1
  {
    var j := MapAll(allowed, i, rest);
    FoldAppend(Step(allowed), i, rest, [a]);
    assert Fold(Step(allowed), j, [a]) == Apply(allowed, j, a) by {
      assert Fold(Step(allowed), Apply(allowed, j, a), [a][1..]) == Apply(allowed, j, a);
    }
    ReadAfterWrite(j, LIBRARY, a.1);
  }

  function Without(xs: seq<(CliOption, Value)>, k: nat): seq<(CliOption, Value)>
    requires k < |xs|
  {
    xs[..k] + xs[k + 1..]
  }

  lemma MoveToEnd(xs: seq<(CliOption, Value)>, k: nat)
    requires k < |xs|
    ensures multiset(Without(xs, k) + [xs[k]]) == multiset(xs)
  {
    assert xs == xs[..k] + [xs[k]] + xs[k + 1..];
  }

  /** Either of two different library paths can be the one that stays. */
  lemma ConflictMatters(allowed: Value -> Value, i: map<Field, Value>, xs: seq<(CliOption, Value)>)
      returns (ys: seq<(CliOption, Value)>, zs: seq<(CliOption, Value)>)
    requires HasConflict(xs)
    ensures multiset(ys) == multiset(xs) == multiset(zs)
    ensures MapAll(allowed, i, ys) != MapAll(allowed, i, zs)
  {
    var a, b :| a in xs && b in xs && Conflict(a, b);
    var j :| 0 <= j < |xs| && xs[j] == a;
    var k :| 0 <= k < |xs| && xs[k] == b;
    ys, zs := Without(xs, j) + [a], Without(xs, k) + [b];
    MoveToEnd(xs, j);
    MoveToEnd(xs, k);
    LastLibraryWins(allowed, i, Without(xs, j), a);
    LastLibraryWins(allowed, i, Without(xs, k), b);
  }

  /**
   The connection record is the same for every order of the option keys exactly when the two names of
   the library path are not both given with different values.
   */
  lemma OrderIndependentIffNoConflict(allowed: Value -> Value, i: map<Field, Value>, xs: seq<(CliOption, Value)>)
    requires DistinctKeys(xs)
    ensures (forall ys :: multiset(ys) == multiset(xs) ==> MapAll(allowed, i, ys) == MapAll(allowed, i, xs))
            <==> !HasConflict(xs)
  {
    if HasConflict(xs) {
      var ys, zs := ConflictMatters(allowed, i, xs);
      assert MapAll(allowed, i, ys) != MapAll(allowed, i, xs) || MapAll(allowed, i, zs) != MapAll(allowed, i, xs);
    } else {
      forall ys | multiset(ys) == multiset(xs) ensures MapAll(allowed, i, ys) == MapAll(allowed, i, xs) {
        OrderDoesNotMatter(allowed, i, xs, ys);
      }
    }
  }

  // ---------- what the record holds in the end ----------

  /** Where the documentation of the options puts them. */
  function Place(option: CliOption): (p: Path)
    ensures p != []
  {
    match option
    case ApiDeprecationErrors => [DriverOptions, ServerApi, DeprecationErrors]
    case ApiStrict => [DriverOptions, ServerApi, Strict]
    case ApiVersion => [DriverOptions, ServerApi, Version]
    case AwsAccessKeyId => [DriverOptions, AutoEncryption, KmsProviders, Aws, AccessKeyId]
    case AwsSecretAccessKey => [DriverOptions, AutoEncryption, KmsProviders, Aws, SecretAccessKey]
    case AwsSessionTokenOption => [DriverOptions, AutoEncryption, KmsProviders, Aws, SessionToken]
    case AwsIamSessionToken => [ConnectionString, Params, AuthMechanismProperties, AwsSessionToken]
    case CsfleLibraryPath => [DriverOptions, AutoEncryption, ExtraOptions, CryptSharedLibPath]
    case CryptSharedLibPathOption => [DriverOptions, AutoEncryption, ExtraOptions, CryptSharedLibPath]
    case GssapiServiceName => [ConnectionString, Params, AuthMechanismProperties, ServiceName]
    case SspiRealmOverride => [ConnectionString, Params, AuthMechanismProperties, ServiceRealm]
    case SspiHostnameCanonicalization => [ConnectionString, Params, AuthMechanismProperties, CanonicalizeHostName]
    case AuthenticationDatabase => [ConnectionString, Params, AuthSource]
    case AuthenticationMechanism => [ConnectionString, Params, AuthMechanism]
    case KeyVaultNamespaceOption => [DriverOptions, AutoEncryption, KeyVaultNamespace]
    case PasswordOption => [ConnectionString, Password]
    case RetryWritesOption => [ConnectionString, Params, RetryWrites]
    case TlsOption => [ConnectionString, Params, Tls]
    case TlsAllowInvalidCertificatesOption => [ConnectionString, Params, TlsAllowInvalidCertificates]
    case TlsAllowInvalidHostnamesOption => [ConnectionString, Params, TlsAllowInvalidHostnames]
    case TlsCAFileOption => [ConnectionString, Params, TlsCAFile]
    case TlsCRLFileOption => [ConnectionString, Params, TlsCRLFile]
    case TlsCertificateKeyFileOption => [ConnectionString, Params, TlsCertificateKeyFile]
    case TlsCertificateKeyFilePasswordOption => [ConnectionString, Params, TlsCertificateKeyFilePassword]
    case UsernameOption => [ConnectionString, Username]
    case OidcRedirectUri => [DriverOptions, Oidc, RedirectURI]
    case OidcTrustedEndpoint => [DriverOptions, AuthMechanismProperties, AllowedHosts]
    case OidcFlows => [DriverOptions, Oidc, AllowedFlows]
    case OidcIdTokenAsAccessToken => [DriverOptions, Oidc, PassIdTokenAsAccessToken]
    case OidcNoNonce => [DriverOptions, Oidc, SkipNonceInAuthCodeRequest]
    case Browser => [DriverOptions, Oidc, OpenBrowser]
    case Unmapped(name) => [Other(name)]
  }

  lemma TargetIsPlace(option: CliOption)
    ensures Target(option) == Place(option)
  {}

  /** Is this what an option with this value, neither empty nor undefined, puts there? */
  predicate IsValueOf(allowed: Value -> Value, hosts: Value, option: CliOption, v: Value, r: Value) {
    match option
    case SspiHostnameCanonicalization =>
      (v == Text("true") ==> r == Bool(true)) && (v == Text("false") ==> r == Bool(false))
      && (v != Text("true") && v != Text("false") ==> r == v)
    case PasswordOption | UsernameOption => if v.Text? then r == Encoded(v.s) else r == v
    case OidcTrustedEndpoint => if v == Bool(false) then r == Undefined else r == allowed(hosts)
    case OidcFlows => if v.Text? then r.List? && AreFlows(v.s, r.items) else r == v
    case Browser => if v.Text? then r == Object(map[Command := v]) else r == v
    case _ => r == v
  }

  /** The non-empty pieces between the commas. */
  predicate AreFlows(s: string, items: seq<string>)
    decreases |s|
  {
    if s == "" then items == []
    else if s[0] == ',' then AreFlows(s[1..], items)
    else
      var n := FlowLength(s);
      items != [] && items[0] == s[..n] && AreFlows(s[n..], items[1..])
  }

  /** The length up to the first comma. */
  function FlowLength(s: string): (n: nat)
    requires s != "" && s[0] != ','
    ensures 1 <= n <= |s| && ',' !in s[..n] && (n < |s| ==> s[n] == ',')
  {
    if |s| == 1 || s[1] == ',' then 1 else FlowLength(s[1..]) + 1
  }

  /** A piece that is under way is completed up to the next comma. */
  lemma {:induction false} FlowUnderWay(s: string, n: nat, word: string)
    requires n <= |s| && ',' !in s[..n] && (n < |s| ==> s[n] == ',') && word + s[..n] != ""
    ensures SplitFlows(s, word) == [word + s[..n]] + SplitFlows(s[n..], "")
    decreases n
  {
    if n == 0 {
      assert word + s[..0] == word && s[0..] == s;
    } else {
      assert s[0] in s[..n] && s[1..][..n - 1] == s[1..n] && forall c :: c in s[1..n] ==> c in s[..n];
      FlowUnderWay(s[1..], n - 1, word + [s[0]]);
      assert (word + [s[0]]) + s[1..][..n - 1] == word + s[..n] && s[1..][n - 1..] == s[n..];
    }
  }

  lemma {:induction false} FlowsAreSplit(s: string)
    ensures AreFlows(s, SplitFlows(s, ""))
    decreases |s|
  {
    if s != "" && s[0] == ',' {
      FlowsAreSplit(s[1..]);
      assert SplitFlows(s, "") == SplitFlows(s[1..], "");
    } else if s != "" {
      var n := FlowLength(s);
      FlowUnderWay(s, n, "");
      assert "" + s[..n] == s[..n];
      FlowsAreSplit(s[n..]);
      assert SplitFlows(s, "")[1..] == SplitFlows(s[n..], "");
    }
  }

  lemma NewValueIs(allowed: Value -> Value, hosts: Value, option: CliOption, v: Value)
    requires v != Undefined && v != Text("")
    ensures IsValueOf(allowed, hosts, option, v, NewValue(allowed, hosts, option, v))
  {
    if option == OidcFlows && v.Text? {
      FlowsAreSplit(v.s);
    }
  }

  lemma {:induction false} HostsStayInAll(allowed: Value -> Value, i: map<Field, Value>, xs: seq<(CliOption, Value)>)
    ensures Read(MapAll(allowed, i, xs), HOSTS) == Read(i, HOSTS)
    decreases |xs|
  {
    if xs != [] {
      HostsStay(allowed, i, xs[0].0, xs[0].1);
      HostsStayInAll(allowed, Apply(allowed, i, xs[0]), xs[1..]);
    }
  }

  /** A setter that does not delete leaves its value; the URL ones delete only what is empty. */
  lemma {:induction false} ReadWritten(m: map<Field, Value>, p: Path, v: Value, d: bool)
    requires p != [] && (d ==> v != Text(""))
    ensures Read(Write(m, p, v, d), p) == v
    decreases |p|
  {
    if |p| > 1 {
      ReadWritten(AsObject(Get(m, p[0])), p[1..], v, d);
    }
  }

  lemma LastIsThere(allowed: Value -> Value, i: map<Field, Value>, rest: seq<(CliOption, Value)>, a: (CliOption, Value))
    requires !Skipped(a)
    ensures IsValueOf(allowed, Read(i, HOSTS), a.0, a.1, Read(MapAll(allowed, i, rest + [a]), Place(a.0)))
  {
    var j := MapAll(allowed, i, rest);
    var v := NewValue(allowed, Read(i, HOSTS), a.0, a.1);
    MapLast(allowed, i, rest, a);
    HostsStayInAll(allowed, i, rest);
    TargetIsPlace(a.0);
    NewValueIs(allowed, Read(i, HOSTS), a.0, a.1);
    NeverEmptied(allowed, Read(i, HOSTS), a.0, a.1);
    ReadWritten(j, Target(a.0), v, Deletes(a.0));
  }

  lemma NeverEmptied(allowed: Value -> Value, hosts: Value, option: CliOption, v: Value)
    requires v != Text("")
    ensures Deletes(option) ==> NewValue(allowed, hosts, option, v) != Text("")
  {
    TargetIsPlace(option);
  }

  lemma MapLast(allowed: Value -> Value, i: map<Field, Value>, rest: seq<(CliOption, Value)>, a: (CliOption, Value))
    ensures MapAll(allowed, i, rest + [a]) == Apply(allowed, MapAll(allowed, i, rest), a)
  {
    var j := MapAll(allowed, i, rest);
    FoldAppend(Step(allowed), i, rest, [a]);
    assert Fold(Step(allowed), Apply(allowed, j, a), [a][1..]) == Apply(allowed, j, a);
  }

  /** Every option that is given is found in its place in the end, with its value; the hosts are the given ones. */
  lemma OptionsAreThere(allowed: Value -> Value, i: map<Field, Value>, xs: seq<(CliOption, Value)>, k: nat)
    requires k < |xs| && DistinctKeys(xs) && !HasConflict(xs) && !Skipped(xs[k])
    ensures IsValueOf(allowed, Read(i, HOSTS), xs[k].0, xs[k].1, Read(MapAll(allowed, i, xs), Place(xs[k].0)))
  {
    MoveToEnd(xs, k);
    OrderDoesNotMatter(allowed, i, xs, Without(xs, k) + [xs[k]]);
    LastIsThere(allowed, i, Without(xs, k), xs[k]);
  }

  /** And everything that no given option is about is as it was. */
  lemma {:induction false} OthersStay(allowed: Value -> Value, i: map<Field, Value>, xs: seq<(CliOption, Value)>,
                                      q: Path)
    requires q != [] && forall k :: 0 <= k < |xs| && !Skipped(xs[k]) ==> Diverge(Place(xs[k].0), q)
    ensures Read(MapAll(allowed, i, xs), q) == Read(i, q)
    decreases |xs|
  {
    if xs != [] {
      var a := xs[0];
      assert forall k :: 0 <= k < |xs| - 1 ==> xs[1..][k] == xs[k + 1];
      OthersStay(allowed, Apply(allowed, i, a), xs[1..], q);
      if !Skipped(a) {
        TargetIsPlace(a.0);
        ReadElsewhere(i, Target(a.0), NewValue(allowed, Read(i, HOSTS), a.0, a.1), Deletes(a.0), q);
      }
    }
  }
}

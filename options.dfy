/** The configuration record `EtcdOptions` and the decisions the cache's constructor takes on it:
    whether it may be built at all, and which call metadata it attaches to every request. */
module Options {
  import opened Wrappers

  /** The three settable properties; a null string is `None`. */
  datatype EtcdOptions = EtcdOptions(
    connectionString: Option<string>,
    username: Option<string>,
    password: Option<string>)

  /** `string.IsNullOrEmpty` */
  predicate IsNullOrEmpty(s: Option<string>) {
    s.None? || s.value == []
  }

  /** The exceptions construction can end with: the two `ArgumentNullException`s of the guard,
      and a failed authentication call, which is not caught. */
  datatype InitError = OptionsNull | ConnectionStringNullOrEmpty | AuthenticationFailed

  /** One gRPC metadata entry. */
  datatype Header = Header(key: string, value: string)

  type Metadata = seq<Header>

  /** The guard at the top of the constructor: it yields the connection string the client is
      created from, or the exception thrown before any client exists. */
  function ValidateOptions(options: Option<EtcdOptions>): (r: Result<string, InitError>)
    ensures r.Success? <==> options.Some? && !IsNullOrEmpty(options.value.connectionString)
    ensures r.Success? ==> r.value != [] && options.value.connectionString == Some(r.value)
    ensures options.None? ==> r == Failure(OptionsNull)
    ensures options.Some? && r.Failure? ==> r.error == ConnectionStringNullOrEmpty
  {
    if options.None? then Failure(OptionsNull)
    else if IsNullOrEmpty(options.value.connectionString) then Failure(ConnectionStringNullOrEmpty)
    else Success(options.value.connectionString.value)
  }

  /** The user name and password to authenticate with: present only when both are non-empty. */
  function Credentials(o: EtcdOptions): (c: Option<(string, string)>)
    ensures c.Some? <==> !IsNullOrEmpty(o.username) && !IsNullOrEmpty(o.password)
    ensures c.Some? ==> c.value == (o.username.value, o.password.value)
  {
    if !IsNullOrEmpty(o.username) && !IsNullOrEmpty(o.password)
    then Some((o.username.value, o.password.value))
    else None
  }

  /** The metadata the cache keeps for its calls. `authenticate` stands for the client's
      `Authenticate` exchange: the token it returns, or `None` when the exchange throws. */
  function AuthMetadata(o: EtcdOptions, authenticate: (string, string) -> Option<string>): (r: Result<Metadata, InitError>)
    ensures r.Failure? <==> Credentials(o).Some? && authenticate(o.username.value, o.password.value).None?
    ensures r.Failure? ==> r.error == AuthenticationFailed
    ensures r.Success? && Credentials(o).None? ==> r.value == []
    ensures r.Success? && Credentials(o).Some? ==>
              r.value == [Header("token", authenticate(o.username.value, o.password.value).value)]
  {
    match Credentials(o)
    case None => Success([])
    case Some((user, password)) =>
      match authenticate(user, password)
      case None => Failure(AuthenticationFailed)
      case Some(token) => Success([Header("token", token)])
  }

  /** The metadata is never anything but empty or the single token entry, and it holds the
      token exactly when both credentials are non-empty. */
  lemma MetadataShape(o: EtcdOptions, authenticate: (string, string) -> Option<string>)
    requires AuthMetadata(o, authenticate).Success?
    ensures var m := AuthMetadata(o, authenticate).value;
            (m != [] <==> !IsNullOrEmpty(o.username) && !IsNullOrEmpty(o.password)) &&
            (m != [] ==> |m| == 1 && m[0].key == "token")
  {
  }
}

/** The driver entry point (Driver): it accepts exactly the URLs that start
    with `jdbc:elastic://`, opens a connection for them, and keeps a single
    registered instance in a class-level field. */
module Drivers {
  import opened Common
  import opened Text
  import opened Connections

  const Prefix: string := "jdbc:elastic://"

  const UrlIsNull: Error := SqlError("Url is null")
  const AlreadyRegistered: Error :=
    IllegalState("Driver is already registered. It can only be registered once.")
  const NotRegistered: Error :=
    IllegalState("Driver is not registered (or it has not been registered using Driver.register() method)")

  /** Every accepted URL has a `//`, so opening a connection for it always
      finds a host: the text after the prefix, with `http://` in front
      unless it already starts with `http`. */
  lemma PrefixedUrlHost(url: string)
    requires StartsWith(url, Prefix)
    ensures HostString(url) == Success(
      var rest := url[|Prefix|..];
      if StartsWith(rest, "http") then rest else "http://" + rest)
  {
    var scheme := "jdbc:elastic:";
    assert url == scheme + UrlSeparator + url[|Prefix|..];
    SlashFreeScheme(scheme, url[|Prefix|..]);
    HostStringAt(scheme, url[|Prefix|..]);
  }

  class Driver {
    constructor ()
    {
    }

    /** `acceptsURL(url)` */
    function AcceptsUrl(url: Option<string>): (r: Result<bool>)
      ensures r.Failure? <==> url.None?
      ensures r.Failure? ==> r.error == UrlIsNull
      ensures r.Success? ==> (r.value <==> StartsWith(url.value, Prefix))
    {
      match url
      case None => Failure(UrlIsNull)
      case Some(u) => Success(StartsWith(u, Prefix))
    }

    /** `connect(url, info)`: no connection (null) for a foreign URL, a new
        connection to the URL's host for an accepted one. */
    method Connect(url: Option<string>, info: Option<map<string, string>>) returns (r: Result<Option<Connection>>)
      ensures url.None? ==> r == Failure(UrlIsNull)
      ensures r == Success(None) <==> url.Some? && !StartsWith(url.value, Prefix)
      ensures url.Some? && StartsWith(url.value, Prefix) && info.None? ==> r == Failure(Converted)
      ensures url.Some? && StartsWith(url.value, Prefix) && info.Some? ==>
        r.Success? && r.value.Some? && fresh(r.value.value) && r.value.value.Valid()
      ensures url.Some? && StartsWith(url.value, Prefix) && r.Success? && r.value.Some? ==>
        r.value.value.client.host ==
          var rest := url.value[|Prefix|..];
          if StartsWith(rest, "http") then rest else "http://" + rest
    {
      var accepted := AcceptsUrl(url);
      if accepted.Failure? {
        return Failure(accepted.error);
      }
      if !accepted.value {
        return Success(None);
      }
      PrefixedUrlHost(url.value);
      var c := Connection.Open(url.value, info);
      if c.Failure? {
        return Failure(c.error);
      }
      r := Success(Some(c.value));
    }

    /** `getMajorVersion()`: the driver is version 1.0. */
    function GetMajorVersion(): (v: int)
      ensures v == 1
    {
      1
    }

    /** `getMinorVersion()` */
    function GetMinorVersion(): (v: int)
      ensures v == 0
    {
      0
    }

    /** `jdbcCompliant()`: the driver does not claim JDBC compliance. */
    function JdbcCompliant(): (b: bool)
      ensures !b
    {
      false
    }

    /** `getPropertyInfo(url, info)`: no properties are described. */
    function GetPropertyInfo(url: Option<string>, info: Option<map<string, string>>): (r: seq<string>)
      ensures |r| == 0
    {
      []
    }
  }

  /** The class-level `driver` field shared by all callers. */
  class Registry {
    var driver: Driver?

    /** Before the class initialiser runs, no driver is registered. */
    constructor ()
      ensures driver == null
    {
      driver := null;
    }

    /** `isRegistered()` */
    /** `isRegistered()`: whether the class-level field holds a driver. */
    predicate IsRegistered(): (b: bool)
      reads this
      ensures b <==> driver != null
    {
      driver != null
    }

    /** `register()`: at most one registered driver. */
    method Register() returns (r: Outcome)
      modifies this
      ensures IsRegistered()
      ensures r.Pass? <==> !old(IsRegistered())
      ensures r.Fail? ==> r.error == AlreadyRegistered && driver == old(driver)
      ensures r.Pass? ==> fresh(driver)
    {
      if driver != null {
        return Fail(AlreadyRegistered);
      }
      driver := new Driver();
      r := Pass;
    }

    /** `deregister()` */
    method Deregister() returns (r: Outcome)
      modifies this
      ensures !IsRegistered()
      ensures r.Pass? <==> old(IsRegistered())
      ensures r.Fail? ==> r.error == NotRegistered
    {
      if driver == null {
        return Fail(NotRegistered);
      }
      driver := null;
      r := Pass;
    }
  }

  /** Registering and then deregistering restores the unregistered state,
      and a second registration in a row is refused. */
  method RegisterThenDeregister(registry: Registry) returns (first: Outcome, second: Outcome, last: Outcome)
    requires !registry.IsRegistered()
    modifies registry
    ensures first == Pass && second == Fail(AlreadyRegistered) && last == Pass
    ensures !registry.IsRegistered()
  {
    first := registry.Register();
    second := registry.Register();
    last := registry.Deregister();
  }
}

/** The option string of a CIFS mount, in which a doubled comma stands for a comma of the password. */
module CifsOptions {
  import opened Wrappers
  import opened Events

  const EAGAIN := 11
  const EADDRNOTAVAIL := 99
  const ENETUNREACH := 101
  const ENOTCONN := 107
  const EHOSTDOWN := 112
  const EHOSTUNREACH := 113
  const EINPROGRESS := 115

  const BASE_OPTIONS :=
    "sec=ntlmsspi" + "," + "seal" + "," + "soft" + "," + "cache=none" + "," + "retrans=1" + "," + "echo_interval=1"

  /** Every comma doubled. */
  function Escape(s: string): string {
    if s == "" then "" else (if s[0] == ',' then ",," else [s[0]]) + Escape(s[1..])
  }

  /** How a mount helper reads an option string: left to right, ",," as a comma, "," as the end of an option. */
  function ReadOptions(s: string, option: string): seq<string> {
    if s == "" then [option]
    else if s[0] != ',' then ReadOptions(s[1..], option + [s[0]])
    else if |s| > 1 && s[1] == ',' then ReadOptions(s[2..], option + ",")
    else [option] + ReadOptions(s[1..], "")
  }

  function Parse(s: string): seq<string> {
    ReadOptions(s, "")
  }

  /** Options written one after the other, each with its commas doubled. */
  function Join(options: seq<string>): string
    requires options != []
  {
    var last := |options| - 1;
    if last == 0 then Escape(options[0]) else Join(options[..last]) + "," + Escape(options[last])
  }

  lemma {:induction false} ReadEscaped(s: string, rest: string, option: string)
    ensures ReadOptions(Escape(s) + rest, option) == ReadOptions(rest, option + s)
  {
    if s == "" {
      assert Escape(s) + rest == rest;
      assert option + s == option;
    } else {
      assert option + s == (option + [s[0]]) + s[1..];
      var tail := Escape(s[1..]) + rest;
      if s[0] == ',' {
        assert Escape(s) + rest == ",," + tail;
        assert (",," + tail)[2..] == tail;
      } else {
        assert Escape(s) + rest == [s[0]] + tail;
        assert ([s[0]] + tail)[1..] == tail;
      }
      ReadEscaped(s[1..], rest, option + [s[0]]);
    }
  }

  lemma {:induction false} EscapeKeepsFirst(s: string)
    requires s != "" && s[0] != ','
    ensures Escape(s) != "" && Escape(s)[0] == s[0]
  {
  }

  lemma ReadComma(rest: string, option: string)
    requires rest == "" || rest[0] != ','
    ensures ReadOptions("," + rest, option) == [option] + ReadOptions(rest, "")
  {
    assert ("," + rest)[1..] == rest;
  }

  lemma JoinSplits(options: seq<string>, rest: string)
    requires |options| > 1
    ensures var last := |options| - 1;
            Join(options) + rest == Join(options[..last]) + ("," + (Escape(options[last]) + rest))
  {
    hide Escape;
    var last := |options| - 1;
    var joined := Join(options[..last]);
    assert Join(options) == joined + "," + Escape(options[last]);
    hide Join;
    Regrouped(",", Escape(options[last]), rest);
    Regrouped(joined, ",", Escape(options[last]));
    Regrouped(joined, "," + Escape(options[last]), rest);
  }

  lemma {:induction false} ReadJoin(options: seq<string>, rest: string)
    requires options != [] && forall i :: 0 < i < |options| ==> options[i] != "" && options[i][0] != ','
    ensures var last := |options| - 1;
            ReadOptions(Join(options) + rest, "") == options[..last] + ReadOptions(rest, options[last])
  {
    var last := |options| - 1;
    if last == 0 {
      ReadEscaped(options[0], rest, "");
      assert "" + options[0] == options[0];
    } else {
      hide Escape, ReadOptions, Join;
      var tail := Escape(options[last]) + rest;
      EscapeKeepsFirst(options[last]);
      JoinSplits(options, rest);
      ReadJoin(options[..last], "," + tail);
      ReadComma(tail, options[last - 1]);
      ReadEscaped(options[last], rest, "");
      assert "" + options[last] == options[last];
      assert options[..last] == options[..last][..last - 1] + [options[last - 1]];
    }
  }

  /** Options so written come back, whatever commas they contain, unless a later one is empty or begins with one. */
  lemma JoinRoundTrip(options: seq<string>)
    requires options != [] && forall i :: 0 < i < |options| ==> options[i] != "" && options[i][0] != ','
    ensures Parse(Join(options)) == options
  {
    ReadJoin(options, "");
    assert Join(options) + "" == Join(options);
  }

  // ----- what SmbShare writes -----

  function LoginOptions(login: Option<Login>): seq<string> {
    if login.None? then ["guest", "username=OpenBmc"]
    else ["username=" + login.value.user, "password=" + login.value.password]
  }

  const COMMON_OPTIONS := ["sec=ntlmsspi", "seal", "soft", "cache=none", "retrans=1", "echo_interval=1"]

  function Intended(login: Option<Login>, version: string): seq<string> {
    COMMON_OPTIONS + LoginOptions(login) + [version]
  }

  /** The text itself, with the password as it stands after its commas were doubled. */
  function OptionText(login: Option<Login>, version: string): string {
    BASE_OPTIONS + ","
    + (if login.None? then "guest,username=OpenBmc"
       else "username=" + login.value.user + ",password=" + Escape(login.value.password))
    + "," + version
  }

  lemma {:induction false} EscapePlain(s: string)
    requires ',' !in s
    ensures Escape(s) == s
  {
    if s != "" {
      EscapePlain(s[1..]);
      assert s == [s[0]] + s[1..];
    }
  }

  lemma EscapeNext(c: char, s: string)
    ensures Escape([c] + s) == (if c == ',' then ",," else [c]) + Escape(s)
  {
    assert ([c] + s)[1..] == s;
  }

  lemma Regrouped(a: string, b: string, c: string)
    ensures a + (b + c) == (a + b) + c
  {
  }

  lemma {:induction false} EscapeConcat(a: string, b: string)
    ensures Escape(a + b) == Escape(a) + Escape(b)
  {
    if a == "" {
      assert a + b == b;
    } else {
      hide Escape;
      EscapeConcat(a[1..], b);
      EscapeNext(a[0], a[1..]);
      EscapeNext(a[0], a[1..] + b);
      assert a == [a[0]] + a[1..];
      assert a + b == [a[0]] + (a[1..] + b);
      Regrouped(if a[0] == ',' then ",," else [a[0]], Escape(a[1..]), Escape(b));
    }
  }

  lemma EscapePasswordOption(password: string)
    ensures Escape("password=" + password) == "password=" + Escape(password)
  {
    EscapeConcat("password=", password);
    EscapePlain("password=");
  }

  lemma JoinNext(options: seq<string>, option: string)
    requires options != []
    ensures Join(options + [option]) == Join(options) + "," + Escape(option)
  {
    assert (options + [option])[..|options|] == options;
  }

  lemma JoinPlain(options: seq<string>, option: string)
    requires options != [] && ',' !in option
    ensures Join(options + [option]) == Join(options) + "," + option
  {
    JoinNext(options, option);
    EscapePlain(option);
  }

  lemma JoinSix(a: string, b: string, c: string, d: string, e: string, f: string)
    requires ',' !in a && ',' !in b && ',' !in c && ',' !in d && ',' !in e && ',' !in f
    ensures Join([a, b, c, d, e, f]) == a + "," + b + "," + c + "," + d + "," + e + "," + f
  {
    assert Join([a]) == a by {
      EscapePlain(a);
    }
    hide Join, Escape;
    JoinPlain([a], b);
    assert [a] + [b] == [a, b];
    JoinPlain([a, b], c);
    assert [a, b] + [c] == [a, b, c];
    JoinPlain([a, b, c], d);
    assert [a, b, c] + [d] == [a, b, c, d];
    JoinPlain([a, b, c, d], e);
    assert [a, b, c, d] + [e] == [a, b, c, d, e];
    JoinPlain([a, b, c, d, e], f);
    assert [a, b, c, d, e] + [f] == [a, b, c, d, e, f];
  }

  lemma CommonIsPlain()
    ensures Join(COMMON_OPTIONS) == BASE_OPTIONS
  {
    hide Join, Escape;
    JoinSix("sec=ntlmsspi", "seal", "soft", "cache=none", "retrans=1", "echo_interval=1");
  }

  /** The two login options, joined by a comma of their own. */
  lemma LoginText(login: Option<Login>)
    requires login.Some? ==> ',' !in login.value.user
    ensures var two := LoginOptions(login);
            ',' !in two[0]
            && two[0] + "," + Escape(two[1])
               == if login.None? then "guest,username=OpenBmc"
                  else "username=" + login.value.user + ",password=" + Escape(login.value.password)
  {
    hide Escape;
    if login.None? {
      EscapePlain("username=OpenBmc");
      assert "guest" + "," + "username=OpenBmc" == "guest,username=OpenBmc";
    } else {
      EscapePasswordOption(login.value.password);
      var escaped := Escape(login.value.password);
      assert ",password=" == "," + "password=";
      assert "username=" + login.value.user + "," + ("password=" + escaped)
          == "username=" + login.value.user + ("," + "password=") + escaped;
    }
  }

  lemma Regroup(a: string, b: string, c: string, d: string)
    ensures a + "," + b + "," + c + "," + d == a + "," + (b + "," + c) + "," + d
  {
  }

  /** The text is the intended options written one after the other; only the password has commas to double. */
  lemma TextIsJoin(login: Option<Login>, version: string)
    requires login.Some? ==> ',' !in login.value.user
    requires ',' !in version
    ensures OptionText(login, version) == Join(Intended(login, version))
  {
    hide Escape, Join;
    var two := LoginOptions(login);
    LoginText(login);
    CommonIsPlain();
    JoinPlain(COMMON_OPTIONS, two[0]);
    JoinNext(COMMON_OPTIONS + [two[0]], two[1]);
    JoinPlain(COMMON_OPTIONS + [two[0]] + [two[1]], version);
    assert COMMON_OPTIONS + [two[0]] + [two[1]] + [version] == Intended(login, version);
    Regroup(BASE_OPTIONS, two[0], Escape(two[1]), version);
  }

  /** Read back, the text is exactly the options meant, with the user name and the password as they were given. */
  lemma OptionsRoundTrip(login: Option<Login>, version: string)
    requires login.Some? ==> ',' !in login.value.user
    requires version != "" && ',' !in version
    ensures Parse(OptionText(login, version)) == Intended(login, version)
  {
    hide Parse, Join;
    TextIsJoin(login, version);
    JoinRoundTrip(Intended(login, version));
  }

  // ----- the writer -----

  /** Login details whose password is doubled in place, once, when a CIFS mount first needs it. */
  class Credentials {
    var userBuf: string
    var passBuf: string
    var commasEscaped: bool
    ghost var given: Login

    ghost predicate Valid()
      reads this
    {
      userBuf == given.user && passBuf == if commasEscaped then Escape(given.password) else given.password
    }

    constructor (user: string, password: string)
      ensures Valid() && given == Login(user, password) && !commasEscaped
    {
      userBuf, passBuf, commasEscaped := user, password, false;
      given := Login(user, password);
    }

    static method EscapeComma(s: string) returns (temp: string)
      ensures temp == Escape(s)
    {
      temp := "";
      for i := 0 to |s|
        invariant temp == Escape(s[..i])
      {
        assert s[..i + 1] == s[..i] + [s[i]];
        EscapeConcat(s[..i], [s[i]]);
        assert [s[i]][1..] == "";
        temp := temp + [s[i]];
        if s[i] == ',' {
          temp := temp + [s[i]];
        }
      }
      assert s[..|s|] == s;
    }

    /** However often it is called, the commas are doubled once. */
    method EscapeCommas()
      requires Valid()
      modifies this
      ensures Valid() && commasEscaped && given == old(given)
    {
      if !commasEscaped {
        passBuf := EscapeComma(passBuf);
        commasEscaped := true;
      }
    }
  }

  function MapError(error: int): int {
    if error == EACCES || error == EAGAIN then EPERM
    else if error == ENETUNREACH || error == EHOSTUNREACH || error == EHOSTDOWN || error == EADDRNOTAVAIL
    then EHOSTUNREACH
    else if error == ECONNREFUSED || error == ENOTCONN || error == EINPROGRESS then ECONNREFUSED
    else error
  }

  /**
   What a mount error is reported as, in numbers: no access (13) and try again (11) as no permission (1); the kinds of
   being out of reach (101, 112, 113, 99) as 113; those of no connection (111, 107, 115) as 111; the rest as it is.
   */
  lemma ReportedErrors(error: int)
    ensures error in {13, 11} ==> MapError(error) == 1
    ensures error in {101, 113, 112, 99} ==> MapError(error) == 113
    ensures error in {111, 107, 115} ==> MapError(error) == 111
    ensures error !in {13, 11, 101, 113, 112, 99, 111, 107, 115} ==> MapError(error) == error
    ensures MapError(error) == 0 <==> error == 0
  {
  }

  ghost function GivenLogin(credentials: Credentials?): Option<Login>
    reads credentials
  {
    if credentials == null then None else Some(credentials.given)
  }

  predicate UsableName(login: Option<Login>) {
    login.Some? ==> ',' !in login.value.user
  }

  /**
   One CIFS mount: `calls` are the option strings handed to the kernel, of which the second, with a lower
   protocol version, is tried only if the first fails. Each reads back as the login that was given.
   */
  method MountSmb(credentials: Credentials?, firstError: int, secondError: int) returns (error: int, calls: seq<string>)
    requires credentials != null ==> credentials.Valid()
    modifies credentials
    ensures credentials != null ==> credentials.Valid() && credentials.given == old(credentials.given)
    ensures calls == [] <==> !UsableName(GivenLogin(credentials))
    ensures calls == [] ==> error == EINVAL
    ensures calls != [] ==>
              && Parse(calls[0]) == Intended(GivenLogin(credentials), "vers=3.1.1")
              && |calls| == (if firstError == 0 then 1 else 2)
              && (firstError != 0 ==> Parse(calls[1]) == Intended(GivenLogin(credentials), "vers=3"))
              && error == (if firstError == 0 then 0 else MapError(secondError))
              && (error == 0 <==> firstError == 0 || secondError == 0)
  {
    hide Parse, ReadOptions, Escape, Intended;
    var options := BASE_OPTIONS;
    var credentialsOpt;
    if credentials == null {
      credentialsOpt := "guest,username=OpenBmc";
    } else {
      if ',' in credentials.userBuf {
        return EINVAL, [];
      }
      credentials.EscapeCommas();
      credentialsOpt := "username=" + credentials.userBuf + ",password=" + credentials.passBuf;
    }
    options := options + "," + credentialsOpt;
    ghost var login := GivenLogin(credentials);
    Versions();
    OptionsRoundTrip(login, "vers=3.1.1");
    OptionsRoundTrip(login, "vers=3");
    calls := [options + ("," + "vers=3.1.1")];
    assert calls[0] == OptionText(login, "vers=3.1.1");
    if firstError == 0 {
      return 0, calls;
    }
    calls := calls + [options + ("," + "vers=3")];
    assert calls[1] == OptionText(login, "vers=3");
    error := MapError(secondError);
  }

  lemma Versions()
    ensures ',' !in "vers=3.1.1" && ',' !in "vers=3"
  {
  }
}

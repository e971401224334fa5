/** User name and password on their way through a pipe: two strings, each ended by a NUL. */
module CredentialPipe {
  import opened Wrappers
  import opened Events

  const SECRET_LIMIT := 1024
  const NUL := '\0'

  /** The bytes asyncWrite puts into the pipe. */
  function Message(user: string, password: string): string {
    user + [NUL] + password + [NUL]
  }

  function Nuls(s: string): nat {
    if s == "" then 0 else Nuls(s[..|s| - 1]) + if s[|s| - 1] == NUL then 1 else 0
  }

  /** `s` as C reads it: up to the first NUL. */
  function CString(s: string): string {
    if s == "" || s[0] == NUL then "" else [s[0]] + CString(s[1..])
  }

  /** The reader: exactly two NULs among the bytes received, and a string up to each of them. */
  function Decode(received: string): Option<Login> {
    if Nuls(received) != 2 then None
    else
      var user := CString(received);
      CStringStops(received);
      Some(Login(user, CString(received[|user| + 1..])))
  }

  // ----- strings and NULs -----

  lemma {:induction false} NulsConcat(a: string, b: string)
    ensures Nuls(a + b) == Nuls(a) + Nuls(b)
  {
    if b == "" {
      assert a + b == a;
    } else {
      NulsConcat(a, b[..|b| - 1]);
      assert (a + b)[..|a + b| - 1] == a + b[..|b| - 1];
    }
  }

  lemma {:induction false} NulsIffPresent(s: string)
    ensures Nuls(s) == 0 <==> NUL !in s
  {
    if s != "" {
      NulsIffPresent(s[..|s| - 1]);
      assert s == s[..|s| - 1] + [s[|s| - 1]];
    }
  }

  /** A C string is a NUL-free prefix, cut off by the first NUL or by the end. */
  lemma {:induction false} CStringStops(s: string)
    ensures var c := CString(s);
            && |c| <= |s| && c == s[..|c|] && NUL !in c
            && (|c| < |s| ==> s[|c|] == NUL)
            && (Nuls(s) > 0 ==> |c| < |s|)
  {
    if s != "" && s[0] != NUL {
      CStringStops(s[1..]);
      assert s == [s[0]] + s[1..];
      NulsConcat([s[0]], s[1..]);
      assert [s[0]][..0] == "";
    }
    if |CString(s)| == |s| {
      NulsIffPresent(s);
    }
  }

  lemma {:induction false} CStringOf(s: string, rest: string)
    requires NUL !in s
    ensures CString(s + [NUL] + rest) == s
  {
    if s == "" {
      assert s + [NUL] + rest == [NUL] + rest;
    } else {
      CStringOf(s[1..], rest);
      assert (s + [NUL] + rest)[1..] == s[1..] + [NUL] + rest;
    }
  }

  lemma MessageNuls(user: string, password: string)
    ensures Nuls(Message(user, password)) == Nuls(user) + Nuls(password) + 2
  {
    NulsConcat(user + [NUL] + password, [NUL]);
    NulsConcat(user + [NUL], password);
    NulsConcat(user, [NUL]);
    assert Nuls([NUL]) == 1 by {
      assert [NUL][..0] == "";
    }
  }

  // ----- the round trip -----

  /** The whole message decodes to what was written exactly when neither part contains a NUL. */
  lemma RoundTripIff(user: string, password: string)
    ensures Decode(Message(user, password)) == Some(Login(user, password)) <==> NUL !in user && NUL !in password
  {
    var m := Message(user, password);
    MessageNuls(user, password);
    NulsIffPresent(user);
    NulsIffPresent(password);
    if NUL !in user && NUL !in password {
      assert m == user + [NUL] + (password + [NUL]);
      CStringOf(user, password + [NUL]);
      assert m[|user| + 1..] == password + [NUL] + "";
      CStringOf(password, "");
    }
  }

  lemma PrefixNuls(s: string, n: nat)
    requires n <= |s|
    ensures Nuls(s[..n]) <= Nuls(s)
    ensures n < |s| && s[|s| - 1] == NUL ==> Nuls(s[..n]) < Nuls(s)
  {
    NulsConcat(s[..n], s[n..]);
    assert s == s[..n] + s[n..];
    if n < |s| && s[|s| - 1] == NUL {
      NulsIffPresent(s[n..]);
      assert s[n..][|s| - n - 1] == NUL;
    }
  }

  /** A read that got only part of a NUL-free message is refused, however much of it arrived. */
  lemma PartialReadRefused(user: string, password: string, n: nat)
    requires NUL !in user && NUL !in password && n < |Message(user, password)|
    ensures Decode(Message(user, password)[..n]) == None
  {
    MessageNuls(user, password);
    NulsIffPresent(user);
    NulsIffPresent(password);
    PrefixNuls(Message(user, password), n);
  }

  /** With two NULs in all, one is left after the first string. */
  lemma OneNulLeft(received: string)
    requires Nuls(received) == 2
    ensures var user := CString(received);
            && |user| < |received| && NUL !in user && received == user + [NUL] + received[|user| + 1..]
            && Nuls(received[|user| + 1..]) == 1
  {
    hide CString;
    var user := CString(received);
    CStringStops(received);
    var rest := received[|user| + 1..];
    NulsConcat(user + [NUL], rest);
    NulsConcat(user, [NUL]);
    NulsIffPresent(user);
    assert [NUL][..0] == "";
  }

  /** Whatever is accepted, both strings and their NULs lie inside the bytes received. */
  lemma AcceptedStaysInside(received: string)
    requires Decode(received).Some?
    ensures var login := Decode(received).value;
            && |login.user| + |login.password| + 2 <= |received|
            && Message(login.user, login.password) <= received
            && NUL !in login.user && NUL !in login.password
  {
    hide CString, Nuls;
    OneNulLeft(received);
    CStringStops(received[|CString(received)| + 1..]);
  }

  /** Exactly which bytes are accepted, and as what: two NUL-free strings, each ended by a NUL, and no NUL after. */
  lemma DecodesIff(received: string, login: Login)
    ensures Decode(received) == Some(login) <==>
              && NUL !in login.user && NUL !in login.password
              && login.user + [NUL] + login.password + [NUL] <= received
              && NUL !in received[|login.user| + |login.password| + 2..]
  {
    var m := login.user + [NUL] + login.password + [NUL];
    assert m == Message(login.user, login.password);
    if m <= received {
      var rest := received[|m|..];
      assert received == m + rest;
      NulsConcat(m, rest);
      MessageNuls(login.user, login.password);
      NulsIffPresent(login.user);
      NulsIffPresent(login.password);
      NulsIffPresent(rest);
      if NUL !in login.user && NUL !in login.password {
        assert received == login.user + [NUL] + (login.password + [NUL] + rest);
        CStringOf(login.user, login.password + [NUL] + rest);
        assert received[|login.user| + 1..] == login.password + [NUL] + rest;
        CStringOf(login.password, rest);
      }
    }
    if Decode(received) == Some(login) {
      AcceptedStaysInside(received);
    }
  }

  /** What the reader has accepted once, it accepts again from whoever writes it on: the login goes round unchanged. */
  lemma AcceptedGoesRound(received: string)
    requires Decode(received).Some?
    ensures var login := Decode(received).value;
            Decode(Message(login.user, login.password)) == Some(login)
  {
    AcceptedStaysInside(received);
    RoundTripIff(Decode(received).value.user, Decode(received).value.password);
  }

  /** One read returns no more than the buffer holds. */
  function Readable(m: string): nat {
    if |m| < SECRET_LIMIT then |m| else SECRET_LIMIT
  }

  /**
   Every accepted read of a message gives the pair that was written, for every amount read, exactly when
   the pair is NUL-free or the buffer ends before a second NUL: otherwise some read is accepted as another pair.
   */
  lemma EveryAcceptedReadIsRightIff(user: string, password: string)
    ensures var m := Message(user, password);
            (forall n: nat ::
               n <= Readable(m) && Decode(m[..n]).Some? ==> Decode(m[..n]) == Some(Login(user, password)))
            <==> ((NUL !in user && NUL !in password) || Nuls(m[..Readable(m)]) < 2)
  {
    var m := Message(user, password);
    if NUL !in user && NUL !in password {
      forall n: nat | n <= Readable(m) && Decode(m[..n]).Some?
        ensures Decode(m[..n]) == Some(Login(user, password))
      {
        if n < |m| {
          PartialReadRefused(user, password, n);
        }
        assert m[..|m|] == m;
        RoundTripIff(user, password);
      }
    } else if Nuls(m[..Readable(m)]) >= 2 {
      var n := TwoNulPrefix(m[..Readable(m)]);
      assert m[..Readable(m)][..n] == m[..n];
      assert Decode(m[..n]).Some?;
      AcceptedStaysInside(m[..n]);
    } else {
      forall n: nat | n <= Readable(m)
        ensures Decode(m[..n]).None?
      {
        PrefixNuls(m[..Readable(m)], n);
        assert m[..Readable(m)][..n] == m[..n];
      }
    }
  }

  lemma {:induction false} TwoNulPrefix(s: string) returns (n: nat)
    requires Nuls(s) >= 2
    ensures n <= |s| && Nuls(s[..n]) == 2
  {
    if Nuls(s) == 2 {
      assert s[..|s|] == s;
      return |s|;
    }
    n := TwoNulPrefix(s[..|s| - 1]);
    assert s[..|s| - 1][..n] == s[..n];
  }

  // ----- the writer -----

  /** The login kept for a reconnect, and the pipe it is written to. */
  class Credentials {
    var user: string
    var pass: string
    /** The bytes in the pipe. */
    var written: string

    constructor ()
      ensures user == "" && pass == "" && written == ""
    {
      user, pass, written := "", "", "";
    }

    /** The strings are moved in, and each is written with the NUL that ends it. */
    method AsyncWrite(username: string, password: string)
      modifies this
      ensures user == username && pass == password
      ensures written == old(written) + Message(username, password)
    {
      user := username;
      pass := password;
      var buffer := [user + [NUL], pass + [NUL]];
      written := written + (buffer[0] + buffer[1]);
      assert buffer[0] + buffer[1] == Message(username, password);
    }
  }

  // ----- the reader, on its buffer -----

  method CountNuls(buf: array<char>, size: nat) returns (count: nat)
    requires size <= buf.Length
    ensures count == Nuls(buf[..size])
  {
    count := 0;
    for i := 0 to size
      invariant count == Nuls(buf[..i])
    {
      assert buf[..i + 1][..i] == buf[..i];
      if buf[i] == NUL {
        count := count + 1;
      }
    }
  }

  /** A string built from a pointer into the buffer: it runs to the next NUL, wherever that is. */
  method ReadCString(buf: array<char>, start: nat, ghost size: nat) returns (s: string)
    requires start <= size <= buf.Length && NUL in buf[start..size]
    ensures s == CString(buf[start..size])
  {
    var i := start;
    s := "";
    while buf[i] != NUL
      invariant start <= i < size && s == buf[start..i] && NUL in buf[i..size]
      invariant CString(buf[start..size]) == s + CString(buf[i..size])
      decreases size - i
    {
      assert buf[i..size] == [buf[i]] + buf[i + 1..size];
      assert buf[i..size][1..] == buf[i + 1..size];
      s := s + [buf[i]];
      i := i + 1;
    }
  }

  /** The credential part of the legacy Mount method; what lies beyond `size` is left over from before. */
  method ReadCredentials(buf: array<char>, size: nat) returns (login: Option<Login>)
    requires buf.Length == SECRET_LIMIT && size <= buf.Length
    ensures login == Decode(buf[..size])
  {
    var nullCount := CountNuls(buf, size);
    if nullCount != 2 {
      return None;
    }
    NulsIffPresent(buf[..size]);
    ghost var received := buf[..size];
    OneNulLeft(received);
    var user := ReadCString(buf, 0, size);
    NulsIffPresent(received[|user| + 1..]);
    assert buf[|user| + 1..size] == received[|user| + 1..];
    var pass := ReadCString(buf, |user| + 1, size);
    return Some(Login(user, pass));
  }
}

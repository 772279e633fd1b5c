/** The credential header both harvesters send: HTTP Basic authentication
    (section 2 of RFC 7617) over the UTF-8 bytes of "username:key", plus a
    JSON content type. */
module BasicAuth {
  import opened Bytes
  import opened Py
  import Base64
  import Utf8

  /** A request-header dictionary. */
  type Headers = map<string, string>

  const Colon: byte := 58

  /** `f"{username}:{key}".encode('utf-8')` */
  function Credentials(username: string, key: string): seq<byte> {
    Utf8.Encode(username + ":" + key)
  }

  /** `get_auth_header(username, key)`: exactly two entries, the Basic
      credential and the JSON content type. */
  function AuthHeader(username: string, key: string): (h: Headers)
    ensures h.Keys == {"Authorization", "Content-Type"}
    ensures h["Content-Type"] == "application/json"
    ensures var a := h["Authorization"];
      |a| == 6 + 4 * ((|Credentials(username, key)| + 2) / 3) && a[..6] == "Basic " &&
      a[6..] == Base64.Encode(Credentials(username, key)) &&
      Base64.Decode(a[6..]) == Some(Credentials(username, key))
  {
    var token := Base64.Encode(Credentials(username, key));
    Base64.DecodeEncode(Credentials(username, key));
    assert ("Basic " + token)[6..] == token;
    map["Authorization" := "Basic " + token, "Content-Type" := "application/json"]
  }

  /** Splits credential bytes at the first colon into user-id and password,
      as a server does under section 2 of RFC 7617. */
  function SplitAtColon(b: seq<byte>): Option<(seq<byte>, seq<byte>)>
    decreases |b|
  {
    if b == [] then None
    else if b[0] == Colon then Some(([], b[1..]))
    else
      match SplitAtColon(b[1..])
      case Some(p) => Some(([b[0]] + p.0, p.1))
      case None => None
  }

  /** A server's reading of an Authorization value: the "Basic " scheme,
      a Base64 token, then user-id and password split at the first colon. */
  function ParseBasic(value: string): Option<(seq<byte>, seq<byte>)> {
    if |value| >= 6 && value[..6] == "Basic " then
      match Base64.Decode(value[6..])
      case Some(b) => SplitAtColon(b)
      case None => None
    else None
  }

  lemma {:induction false} SplitAtFirstColon(u: seq<byte>, k: seq<byte>)
    requires Colon !in u
    ensures SplitAtColon(u + [Colon] + k) == Some((u, k))
  {
    var b := u + [Colon] + k;
    if u != [] {
      assert b[0] == u[0] && b[1..] == u[1..] + [Colon] + k;
      SplitAtFirstColon(u[1..], k);
      assert [u[0]] + u[1..] == u;
    } else {
      assert b[1..] == k;
    }
  }

  /** For a username without ':' (RFC 7617 forbids one in a user-id), the
      header carries exactly the username's and the key's bytes. */
  lemma CredentialsRecoverable(username: string, key: string)
    requires ':' !in username
    ensures ParseBasic(AuthHeader(username, key)["Authorization"]) ==
            Some((Utf8.Encode(username), Utf8.Encode(key)))
  {
    var u, k := Utf8.Encode(username), Utf8.Encode(key);
    Utf8.EncodeAppend(username, ":");
    Utf8.EncodeAppend(username + ":", key);
    assert Utf8.Encode(":") == [Colon];
    assert Credentials(username, key) == u + [Colon] + k;
    Utf8.AsciiByteIffChar(username, ':');
    SplitAtFirstColon(u, k);
  }
}

/** The connection settings of backend/database.py: `Database.__init__` stores its five
    arguments and assembles the SQLAlchemy URL of the MySQL server, percent-encoding only the
    password with `urllib.parse.quote_plus`. Creating the engine, connecting and the session
    generator talk to the server and are not modelled. */
module Database {
  import Text

  const SCHEME: string := "mysql+mysqlconnector://"

  // ---------------------------------------------------------------- quote_plus

  /** The characters `quote` never encodes: ASCII letters, digits and `_.-~` (the unreserved
      characters of section 2.3 of RFC 3986). */
  predicate AlwaysSafe(c: char)
  {
    Text.IsAlnumChar(c) || c == '_' || c == '.' || c == '-' || c == '~'
  }

  /** The characters that can appear in `quote_plus` output. */
  predicate EncodedChar(c: char)
  {
    AlwaysSafe(c) || c == '+' || c == '%' || ('A' <= c <= 'F')
  }

  /** An upper-case hexadecimal digit. */
  function HexDigit(d: nat): (c: char)
    requires d < 16
    ensures Text.IsDigit(c) || 'A' <= c <= 'F'
  {
    if d < 10 then Text.DigitChar(d) else ('A' as int + d - 10) as char
  }

  /** The value of a hexadecimal digit (either case). */
  function HexValue(c: char): nat
  {
    if '0' <= c <= '9' then c as int - '0' as int
    else if 'A' <= c <= 'F' then c as int - 'A' as int + 10
    else if 'a' <= c <= 'f' then c as int - 'a' as int + 10
    else 0
  }

  lemma HexRoundTrip(d: nat)
    requires d < 16
    ensures HexValue(HexDigit(d)) == d
  {
  }

  /** The UTF-8 encoding of one code point (Python's default for `quote`). */
  function Utf8(c: char): (r: seq<nat>)
    ensures 1 <= |r| <= 4
    ensures forall i :: 0 <= i < |r| ==> r[i] < 256
    ensures c as int < 0x80 <==> r == [c as int]
  {
    var n := c as int;
    if n < 0x80 then [n]
    else if n < 0x800 then [0xC0 + n / 64, 0x80 + n % 64]
    else if n < 0x10000 then [0xE0 + n / 4096, 0x80 + (n / 64) % 64, 0x80 + n % 64]
    else [0xF0 + n / 262144, 0x80 + (n / 4096) % 64, 0x80 + (n / 64) % 64, 0x80 + n % 64]
  }

  /** `%XY` for each byte. */
  function PercentBytes(bytes: seq<nat>): (r: string)
    requires forall i :: 0 <= i < |bytes| ==> bytes[i] < 256
    ensures |r| == 3 * |bytes|
    ensures forall i :: 0 <= i < |r| ==> EncodedChar(r[i])
  {
    if bytes == [] then []
    else ['%', HexDigit(bytes[0] / 16), HexDigit(bytes[0] % 16)] + PercentBytes(bytes[1..])
  }

  /** One character of `quote_plus` output: kept, a space as `+`, anything else as the
      percent-encoded bytes of its UTF-8 form. */
  function QuoteChar(c: char): (r: string)
    ensures forall i :: 0 <= i < |r| ==> EncodedChar(r[i])
  {
    if AlwaysSafe(c) then [c] else if c == ' ' then "+" else PercentBytes(Utf8(c))
  }

  /** `urllib.parse.quote_plus(s)` with its default arguments. */
  function QuotePlus(s: string): (r: string)
    ensures forall i :: 0 <= i < |r| ==> EncodedChar(r[i])
    ensures |s| <= |r|
  {
    if s == [] then [] else QuoteChar(s[0]) + QuotePlus(s[1..])
  }

  /** `unquote_plus` for text whose escapes are single bytes below 0x80. */
  function UnquotePlus(s: string): string
  {
    if s == [] then []
    else if s[0] == '+' then " " + UnquotePlus(s[1..])
    else if s[0] == '%' && |s| >= 3 then [(HexValue(s[1]) * 16 + HexValue(s[2])) as char] + UnquotePlus(s[3..])
    else [s[0]] + UnquotePlus(s[1..])
  }

  predicate IsAscii(s: string)
  {
    forall i :: 0 <= i < |s| ==> s[i] as int < 0x80
  }

  /** For an ASCII password, decoding the encoded form gives the password back. */
  lemma {:induction false} QuotePlusRoundTrip(s: string)
    requires IsAscii(s)
    ensures UnquotePlus(QuotePlus(s)) == s
  {
    if s != [] {
      QuotePlusRoundTrip(s[1..]);
      QuoteCharRoundTrip(s[0], QuotePlus(s[1..]));
      assert s == [s[0]] + s[1..];
    }
  }

  /** Decoding reads one encoded ASCII character back and goes on with what follows it. */
  lemma QuoteCharRoundTrip(c: char, rest: string)
    requires c as int < 0x80
    ensures UnquotePlus(QuoteChar(c) + rest) == [c] + UnquotePlus(rest)
  {
    if AlwaysSafe(c) {
      assert ([c] + rest)[1..] == rest;
    } else if c == ' ' {
      assert ("+" + rest)[1..] == rest;
    } else {
      EscapeRoundTrip(c, rest);
    }
  }

  /** An ASCII character outside the safe set is one `%XY` escape, read back as itself. */
  lemma EscapeRoundTrip(c: char, rest: string)
    requires c as int < 0x80 && !AlwaysSafe(c) && c != ' '
    ensures UnquotePlus(QuoteChar(c) + rest) == [c] + UnquotePlus(rest)
  {
    var n := c as int;
    assert Utf8(c) == [n];
    HexRoundTrip(n / 16);
    HexRoundTrip(n % 16);
    var e := ['%', HexDigit(n / 16), HexDigit(n % 16)];
    assert PercentBytes([n]) == e + PercentBytes([]);
    assert QuoteChar(c) == e;
    assert (e + rest)[3..] == rest;
    assert (HexValue(e[1]) * 16 + HexValue(e[2])) as char == c;
  }

  /** A password made only of letters, digits and `_.-~` is inserted as it is. */
  lemma {:induction false} SafePasswordUnchanged(s: string)
    requires forall i :: 0 <= i < |s| ==> AlwaysSafe(s[i])
    ensures QuotePlus(s) == s
  {
    if s != [] {
      SafePasswordUnchanged(s[1..]);
      assert s == [s[0]] + s[1..];
    }
  }

  // ---------------------------------------------------------------- the URL

  /** The password as it enters the URL: encoded, or nothing for an empty password. */
  function EncodedPassword(password: string): (r: string)
    ensures r == QuotePlus(password)
  {
    if password != "" then QuotePlus(password) else ""
  }

  /** `user:password`, the part before the `@`. */
  function Credentials(user: string, password: string): string
  {
    user + ":" + EncodedPassword(password)
  }

  /** `host:port/name`, the part after the `@`. */
  function ServerPart(host: string, port: int, name: string): string
  {
    host + ":" + Text.IntToString(port) + "/" + name
  }

  /** The f-string of `__init__`. */
  function DatabaseUrl(user: string, password: string, host: string, port: int, name: string): (r: string)
    ensures Text.IsPrefix(SCHEME, r)
  {
    SCHEME + Credentials(user, password) + "@" + ServerPart(host, port, name)
  }

  /** With an empty password the credentials read `user:@`. */
  lemma EmptyPasswordUrl(user: string, host: string, port: int, name: string)
    ensures DatabaseUrl(user, "", host, port, name) == SCHEME + user + ":@" + host + ":" + Text.IntToString(port) + "/" + name
  {
    assert Credentials(user, "") == user + ":";
  }

  /** The encoded password never contains `@` (nor `:` or `/`), so whatever the password, the
      URL splits at its only `@` into the credentials and the server part, as long as the
      user, host and database names have no `@` of their own. */
  lemma {:induction false} UrlSplitsAtCredentials(user: string, password: string, host: string, port: int, name: string)
    requires '@' !in user && '@' !in host && '@' !in name
    ensures Text.Split(DatabaseUrl(user, password, host, port, name)[|SCHEME|..], '@') ==
              [user + ":" + QuotePlus(password), host + ":" + Text.IntToString(port) + "/" + name]
  {
    var creds := Credentials(user, password);
    var server := ServerPart(host, port, name);
    UrlAfterScheme(user, password, host, port, name);
    NoAtInParts(user, password, host, port, name);
    Text.SplitAtFirst(creds, '@', server);
    Text.SplitNoSeparator(server, '@');
  }

  lemma UrlAfterScheme(user: string, password: string, host: string, port: int, name: string)
    ensures DatabaseUrl(user, password, host, port, name)[|SCHEME|..] ==
            Credentials(user, password) + "@" + ServerPart(host, port, name)
  {
    var creds := Credentials(user, password);
    var server := ServerPart(host, port, name);
    var rest := creds + "@" + server;
    assert DatabaseUrl(user, password, host, port, name) == SCHEME + rest;
    AfterPrefix(SCHEME, rest);
  }

  lemma AfterPrefix(a: string, b: string)
    ensures (a + b)[|a|..] == b
  {
  }

  lemma NoAtInParts(user: string, password: string, host: string, port: int, name: string)
    requires '@' !in user && '@' !in host && '@' !in name
    ensures '@' !in Credentials(user, password) && '@' !in ServerPart(host, port, name)
  {
    NoAtInEncoded(password);
    NoAtInNumber(port);
  }

  lemma NoAtInEncoded(password: string)
    ensures '@' !in QuotePlus(password)
  {
    var encoded := QuotePlus(password);
    forall i | 0 <= i < |encoded|
      ensures encoded[i] != '@'
    {
      assert EncodedChar(encoded[i]);
    }
  }

  lemma NoAtInNumber(port: int)
    ensures '@' !in Text.IntToString(port)
  {
    var digits := Text.IntToString(port);
    forall i | 0 <= i < |digits|
      ensures digits[i] != '@'
    {
      if port < 0 && i > 0 {
        assert digits[1..][i - 1] == digits[i];
      }
    }
  }

  /** `Database`: the stored settings and the URL built from them. */
  class Database {
    var dbUser: string
    var dbPassword: string
    var dbHost: string
    var dbPort: int
    var dbName: string
    var databaseUrl: string

    /** `Database.__init__`: the arguments are kept unchanged; the password enters the URL
        only in encoded form. */
    constructor (user: string, password: string, host: string, port: int, name: string)
      ensures dbUser == user && dbPassword == password && dbHost == host && dbPort == port && dbName == name
      ensures databaseUrl == DatabaseUrl(user, password, host, port, name)
    {
      dbUser, dbPassword, dbHost, dbPort, dbName := user, password, host, port, name;
      var encoded := if password != "" then QuotePlus(password) else "";
      var credentials := user + ":" + encoded;
      assert credentials == Credentials(user, password);
      var server := host + ":" + Text.IntToString(port) + "/" + name;
      assert server == ServerPart(host, port, name);
      databaseUrl := SCHEME + credentials + "@" + server;
    }
  }
}

// The web console's session cookie: base64url over `user:time:signature`, where the
// signature is a keyed hash of `user:time`. The hash is a parameter that yields hex.
module SessionCookie {
  import opened Basics
  import opened Text
  import opened Utf8
  import opened Base64Url

  const SESSION_TTL_SECONDS := 60 * 60 * 12

  /** `str(n)`. */
  function PrintInt(n: int): string {
    if n < 0 then ['-'] + Print(-n) else Print(n)
  }

  function Unsigned(s: string): Option<int> {
    if s == "" || !AllDigits(s) then None else Some(Value(s))
  }

  /** `int(s)` for an optional sign and ASCII digits. */
  function ParseInt(s: string): Option<int> {
    if s != "" && s[0] == '-' then
      match Unsigned(s[1..])
      case None => None
      case Some(n) => Some(-n)
    else if s != "" && s[0] == '+' then Unsigned(s[1..])
    else Unsigned(s)
  }

  /** The text before and after the last colon. */
  function LastColon(s: string): Option<(string, string)> {
    if s == "" then None
    else
      var last := |s| - 1;
      if s[last] == ':' then Some((s[..last], ""))
      else
        match LastColon(s[..last])
        case None => None
        case Some((before, after)) => Some((before, after + [s[last]]))
  }

  /** `s.rsplit(":", 2)` when it gives three parts. */
  function RightSplit(s: string): Option<(string, string, string)> {
    match LastColon(s)
    case None => None
    case Some((init, third)) =>
      match LastColon(init)
      case None => None
      case Some((first, second)) => Some((first, second, third))
  }

  function Payload(username: string, issuedAt: int): string {
    username + ([':'] + PrintInt(issuedAt))
  }

  type Mac = string -> string

  ghost predicate HexDigests(mac: Mac) {
    forall payload :: forall i | 0 <= i < |mac(payload)| :: IsDigit(mac(payload)[i]) || 'a' <= mac(payload)[i] <= 'f'
  }

  function Token(username: string, issuedAt: int, mac: Mac): string {
    var payload := Payload(username, issuedAt);
    payload + ([':'] + mac(payload))
  }

  function CookieValue(username: string, issuedAt: int, mac: Mac): string {
    Encode64(Encode(Token(username, issuedAt, mac)))
  }

  datatype Session = Session(username: string, issuedAt: int, signature: string)

  /** None where the decoder's blanket `except` answers None. */
  function DecodeCookie(value: string): Option<Session> {
    if !Ascii(value) then None
    else
      match Decode64(value, 0, 0, 0)
      case None => None
      case Some(bytes) =>
        match Decode(bytes)
        case None => None
        case Some(raw) => ReadToken(raw)
  }

  function ReadToken(raw: string): Option<Session> {
    match RightSplit(raw)
    case None => None
    case Some((username, time, signature)) =>
      match ParseInt(time)
      case None => None
      case Some(issuedAt) => Some(Session(username, issuedAt, signature))
  }

  // `Raised`: comparing digests refuses text outside ASCII.
  datatype Verdict = Granted | Denied | Raised

  function Authenticate(cookie: Option<string>, now: int, mac: Mac): Verdict {
    if cookie.GetOr("") == "" then Denied
    else
      match DecodeCookie(cookie.value)
      case None => Denied
      case Some(session) =>
        if session.issuedAt + SESSION_TTL_SECONDS < now then Denied
        else if !Ascii(session.signature) then Raised
        else if session.signature == mac(Payload(session.username, session.issuedAt)) then Granted
        else Denied
  }

  // ----- Round trip -----

  lemma PrintedIsDigits(n: nat)
    ensures Unsigned(Print(n)) == Some(n) && ':' !in Print(n) && IsDigit(Print(n)[0])
  {
    ValueOfPrint(n);
  }

  lemma ParsePrinted(n: int)
    ensures ParseInt(PrintInt(n)) == Some(n)
    ensures ':' !in PrintInt(n)
  {
    if n < 0 {
      PrintedIsDigits(-n);
      var digits := Print(-n);
      assert PrintInt(n)[1..] == digits;
    } else {
      PrintedIsDigits(n);
    }
  }

  lemma {:induction false} LastColonSplits(before: string, after: string)
    requires ':' !in after
    ensures LastColon(before + ([':'] + after)) == Some((before, after))
  {
    var s := before + ([':'] + after);
    var last := |s| - 1;
    if after == "" {
      assert s[..last] == before;
    } else {
      var init := after[..|after| - 1];
      assert s[..last] == before + ([':'] + init);
      assert s[last] == after[|after| - 1] && s[last] in after;
      LastColonSplits(before, init);
      assert init + [s[last]] == after;
    }
  }

  lemma RightSplitToken(username: string, time: string, signature: string)
    requires ':' !in time && ':' !in signature
    ensures RightSplit(username + ([':'] + time) + ([':'] + signature)) == Some((username, time, signature))
  {
    LastColonSplits(username + ([':'] + time), signature);
    LastColonSplits(username, time);
  }

  /** Decoding a cookie gives back the user, the time and the signature it was made of,
      colons and non-ASCII characters in the user name included. */
  lemma CookieRoundTrip(username: string, issuedAt: int, mac: Mac)
    requires HexDigests(mac)
    ensures DecodeCookie(CookieValue(username, issuedAt, mac)) ==
            Some(Session(username, issuedAt, mac(Payload(username, issuedAt))))
  {
    var payload, token := Payload(username, issuedAt), Token(username, issuedAt, mac);
    EncodedIsAscii(Encode(token));
    Base64RoundTrip(Encode(token));
    DecodeEncode(token);
    ParsePrinted(issuedAt);
    RightSplitToken(username, PrintInt(issuedAt), mac(payload));
  }

  /** No two sessions share a cookie, whatever their names are. */
  lemma CookiesDiffer(username: string, issuedAt: int, username': string, issuedAt': int, mac: Mac)
    requires HexDigests(mac) && CookieValue(username, issuedAt, mac) == CookieValue(username', issuedAt', mac)
    ensures username == username' && issuedAt == issuedAt'
  {
    CookieRoundTrip(username, issuedAt, mac);
    CookieRoundTrip(username', issuedAt', mac);
  }

  /** A cookie opens the console for exactly its lifetime. */
  lemma CookieLifetime(username: string, issuedAt: int, now: int, mac: Mac)
    requires HexDigests(mac)
    ensures Authenticate(Some(CookieValue(username, issuedAt, mac)), now, mac) ==
            if now <= issuedAt + 43_200 then Granted else Denied
  {
    CookieRoundTrip(username, issuedAt, mac);
    NonEmpty(username, issuedAt, mac);
    var signature := mac(Payload(username, issuedAt));
    assert forall i | 0 <= i < |signature| :: IsDigit(signature[i]) || 'a' <= signature[i] <= 'f';
  }

  lemma NonEmpty(username: string, issuedAt: int, mac: Mac)
    ensures CookieValue(username, issuedAt, mac) != ""
  {
    assert Token(username, issuedAt, mac) != "";
    assert Encode(Token(username, issuedAt, mac)) != [];
  }

  /** The cookie is the base64 text of `user:time:signature`, signed over `user:time`. */
  lemma CookieText(username: string, issuedAt: int, mac: Mac)
    ensures var payload := username + ":" + PrintInt(issuedAt);
            Decode64(CookieValue(username, issuedAt, mac), 0, 0, 0) == Some(Encode(payload + ":" + mac(payload)))
  {
    var payload := username + ":" + PrintInt(issuedAt);
    assert payload == Payload(username, issuedAt);
    assert payload + ":" + mac(payload) == Token(username, issuedAt, mac);
    Base64RoundTrip(Encode(Token(username, issuedAt, mac)));
  }

  lemma {:induction false} LastColonIs(s: string)
    ensures match LastColon(s)
            case None => ':' !in s
            case Some((before, after)) => s == before + ":" + after && ':' !in after
  {
    if s != "" {
      var last := |s| - 1;
      LastColonIs(s[..last]);
      assert s == s[..last] + [s[last]];
      if s[last] == ':' {
        assert s == s[..last] + ":" + "";
      } else if LastColon(s[..last]).Some? {
        var (before, after) := LastColon(s[..last]).value;
        assert s == before + ":" + (after + [s[last]]);
      }
    }
  }

  /** What a cookie is read as stands in it: user, decimal time and signature, parted by the
      last two colons. */
  lemma DecodedIsWritten(cookie: string)
    requires DecodeCookie(cookie).Some?
    ensures var session := DecodeCookie(cookie).value;
            exists bytes, time ::
              && Decode64(cookie, 0, 0, 0) == Some(bytes)
              && Decode(bytes) == Some(session.username + ":" + time + ":" + session.signature)
              && ParseInt(time) == Some(session.issuedAt) && ':' !in time && ':' !in session.signature
  {
    var bytes := Decode64(cookie, 0, 0, 0).value;
    var raw := Decode(bytes).value;
    LastColonIs(raw);
    LastColonIs(LastColon(raw).value.0);
  }

  /** The console opens exactly for a cookie that reads as user, time and signature, is at
      most twelve hours old, and bears the signature of its own user and time. */
  lemma GrantedExactly(cookie: string, now: int, mac: Mac)
    requires HexDigests(mac)
    ensures Authenticate(Some(cookie), now, mac).Granted? <==>
              && cookie != "" && DecodeCookie(cookie).Some?
              && var session := DecodeCookie(cookie).value;
                 && now - session.issuedAt <= 43_200
                 && session.signature == mac(session.username + ":" + PrintInt(session.issuedAt))
    ensures Authenticate(None, now, mac).Denied?
  {
    if cookie != "" && DecodeCookie(cookie).Some? {
      var session := DecodeCookie(cookie).value;
      var payload := Payload(session.username, session.issuedAt);
      assert payload == session.username + ":" + PrintInt(session.issuedAt);
      assert forall i | 0 <= i < |mac(payload)| :: IsDigit(mac(payload)[i]) || 'a' <= mac(payload)[i] <= 'f';
    }
  }

  /** The signed text names one user and one time: no other pair shares it. */
  lemma PayloadInjective(username: string, issuedAt: int, username': string, issuedAt': int)
    requires Payload(username, issuedAt) == Payload(username', issuedAt')
    ensures username == username' && issuedAt == issuedAt'
  {
    ParsePrinted(issuedAt);
    ParsePrinted(issuedAt');
    LastColonSplits(username, PrintInt(issuedAt));
    LastColonSplits(username', PrintInt(issuedAt'));
  }

  /** A cookie text that is let in with the signature of some user and time shows that
      very user and time, unless the hash collides on these two payloads. */
  lemma GrantedIsSigned(cookie: string, now: int, mac: Mac, username: string, issuedAt: int)
    requires Authenticate(Some(cookie), now, mac).Granted?
    requires DecodeCookie(cookie).value.signature == mac(Payload(username, issuedAt))
    requires var session := DecodeCookie(cookie).value;
             var shown, signed := Payload(session.username, session.issuedAt), Payload(username, issuedAt);
             mac(shown) == mac(signed) ==> shown == signed
    ensures DecodeCookie(cookie).value == Session(username, issuedAt, mac(Payload(username, issuedAt)))
    ensures now <= issuedAt + 43_200
  {
    var session := DecodeCookie(cookie).value;
    PayloadInjective(session.username, session.issuedAt, username, issuedAt);
  }
}

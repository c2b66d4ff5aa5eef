/** The browser push-notification client: decoding the server's VAPID public
    key from base64url (sections 4 and 5 of RFC 4648), and the
    registration/subscription state kept by the service. */
module PushNotifications {
  import opened Wrappers

  // ---------------------------------------------------------------------
  // The base64 alphabet (section 4 of RFC 4648)
  // ---------------------------------------------------------------------

  predicate IsB64(c: char) {
    ('A' <= c <= 'Z') || ('a' <= c <= 'z') || ('0' <= c <= '9') || c == '+' || c == '/'
  }

  /** The value a base64 character stands for. */
  function Value(c: char): (v: nat)
    requires IsB64(c)
    ensures v < 64
  {
    if 'A' <= c <= 'Z' then c as int - 'A' as int
    else if 'a' <= c <= 'z' then c as int - 'a' as int + 26
    else if '0' <= c <= '9' then c as int - '0' as int + 52
    else if c == '+' then 62
    else 63
  }

  /** The character that encodes a 6-bit value. */
  function Digit(v: nat): (c: char)
    requires v < 64
    ensures IsB64(c) && Value(c) == v
  {
    if v < 26 then ('A' as int + v) as char
    else if v < 52 then ('a' as int + v - 26) as char
    else if v < 62 then ('0' as int + v - 52) as char
    else if v == 62 then '+'
    else '/'
  }

  // ---------------------------------------------------------------------
  // Encoding: `btoa`
  // ---------------------------------------------------------------------

  /** Three bytes as four characters. */
  function Quad(a: Byte, b: Byte, c: Byte): (s: string)
    ensures |s| == 4 && AllB64(s)
  {
    [Digit(a / 4), Digit((a % 4) * 16 + b / 16), Digit((b % 16) * 4 + c / 64), Digit(c % 64)]
  }

  /** The encoding without its padding: four characters per three bytes, and
      two or three characters for a final one or two bytes. */
  function EncodeBody(bytes: seq<Byte>): (s: string)
    ensures |s| == 4 * (|bytes| / 3) + (if |bytes| % 3 == 0 then 0 else |bytes| % 3 + 1)
    ensures forall i :: 0 <= i < |s| ==> IsB64(s[i])
  {
    if |bytes| >= 3 then
      Quad(bytes[0], bytes[1], bytes[2]) + EncodeBody(bytes[3..])
    else if |bytes| == 2 then
      var a, b := bytes[0], bytes[1];
      [Digit(a / 4), Digit((a % 4) * 16 + b / 16), Digit((b % 16) * 4)]
    else if |bytes| == 1 then
      [Digit(bytes[0] / 4), Digit((bytes[0] % 4) * 16)]
    else []
  }

  /** The '=' characters that complete the last group of four. */
  function PadFor(n: nat): string {
    if n % 3 == 1 then "==" else if n % 3 == 2 then "=" else ""
  }

  /** `btoa` of the binary string whose character codes are `bytes`. */
  function Btoa(bytes: seq<Byte>): (s: string)
    ensures |s| % 4 == 0
  {
    EncodeBody(bytes) + PadFor(|bytes|)
  }

  // ---------------------------------------------------------------------
  // Decoding: `atob`, the forgiving-base64 decode of the HTML standard
  // ---------------------------------------------------------------------

  /** ASCII white space: tab, line feed, form feed, carriage return, space. */
  predicate IsAsciiWhitespace(c: char) {
    c == '\t' || c == '\n' || c == '\U{000C}' || c == '\r' || c == ' '
  }

  function RemoveWhitespace(s: string): (r: string)
    ensures |r| <= |s|
  {
    if s == [] then []
    else (if IsAsciiWhitespace(s[0]) then [] else [s[0]]) + RemoveWhitespace(s[1..])
  }

  /** When the length is a multiple of four, one or two trailing '=' go. */
  function StripPad(s: string): string {
    if |s| % 4 == 0 && |s| >= 2 && s[|s| - 2..] == "==" then s[..|s| - 2]
    else if |s| % 4 == 0 && |s| >= 1 && s[|s| - 1] == '=' then s[..|s| - 1]
    else s
  }

  predicate AllB64(s: string) {
    forall i :: 0 <= i < |s| ==> IsB64(s[i])
  }

  /** Groups of four characters give three bytes; a final two or three
      characters give one or two bytes, the leftover bits being dropped. */
  function DecodeBody(t: string): (r: seq<Byte>)
    requires AllB64(t) && |t| % 4 != 1
  {
    if |t| >= 4 then
      Triple(Value(t[0]), Value(t[1]), Value(t[2]), Value(t[3])) + DecodeBody(t[4..])
    else if |t| == 3 then
      var v0, v1, v2 := Value(t[0]), Value(t[1]), Value(t[2]);
      [v0 * 4 + v1 / 16, (v1 % 16) * 16 + v2 / 4]
    else if |t| == 2 then
      [Value(t[0]) * 4 + Value(t[1]) / 16]
    else []
  }

  /** The three bytes whose 24 bits four 6-bit values spell. */
  function Triple(v0: nat, v1: nat, v2: nat, v3: nat): (r: seq<Byte>)
    requires v0 < 64 && v1 < 64 && v2 < 64 && v3 < 64
    ensures |r| == 3
  {
    [v0 * 4 + v1 / 16, (v1 % 16) * 16 + v2 / 4, (v2 % 4) * 64 + v3]
  }

  /** The binary string whose character codes are `bytes`. */
  function BinaryString(bytes: seq<Byte>): (s: string)
    ensures |s| == |bytes| && forall i :: 0 <= i < |s| ==> s[i] as int == bytes[i]
  {
    seq(|bytes|, i requires 0 <= i < |bytes| => bytes[i] as char)
  }

  /** `atob`: `None` where it throws. */
  function Atob(s: string): (r: Option<string>)
    ensures r.Some? ==> forall i :: 0 <= i < |r.value| ==> r.value[i] as int < 256
  {
    var t := StripPad(RemoveWhitespace(s));
    if |t| % 4 == 1 || !AllB64(t) then None
    else Some(BinaryString(DecodeBody(t)))
  }

  // ---------------------------------------------------------------------
  // base64url (section 5 of RFC 4648)
  // ---------------------------------------------------------------------

  /** The number of '=' appended: enough to reach a multiple of four. */
  function Padding(n: nat): (p: nat)
    ensures p <= 3 && (n + p) % 4 == 0
  {
    (4 - n % 4) % 4
  }

  function Repeat(c: char, n: nat): (s: string)
    ensures |s| == n && forall i :: 0 <= i < n ==> s[i] == c
  {
    seq(n, i => c)
  }

  /** The two replacements: '-' by '+' and '_' by '/'. */
  function ToStandard(s: string): (r: string)
    ensures |r| == |s|
    ensures forall i :: 0 <= i < |s| ==>
      r[i] == (if s[i] == '-' then '+' else if s[i] == '_' then '/' else s[i])
  {
    seq(|s|, i requires 0 <= i < |s| => if s[i] == '-' then '+' else if s[i] == '_' then '/' else s[i])
  }

  /** The string handed to `atob`. */
  function Padded(key: string): string {
    ToStandard(key + Repeat('=', Padding(|key|)))
  }

  /** The bytes of the decoded key: `None` where `atob` throws. */
  function KeyBytes(key: string): (r: Option<seq<Byte>>)
    ensures r.Some? <==> Atob(Padded(key)).Some?
  {
    match Atob(Padded(key))
    case None => None
    case Some(raw) => Some(Codes(raw))
  }

  /** The character codes of a binary string. */
  function Codes(raw: string): (r: seq<Byte>)
    requires forall i :: 0 <= i < |raw| ==> raw[i] as int < 256
    ensures |r| == |raw| && forall i :: 0 <= i < |raw| ==> r[i] == raw[i] as int
  {
    seq(|raw|, i requires 0 <= i < |raw| => raw[i] as int)
  }

  /** `urlBase64ToUint8Array`: the key padded and normalised, decoded, and
      copied into a fresh array one character code per byte. */
  method UrlBase64ToUint8Array(base64String: string) returns (r: Option<array<Byte>>)
    ensures r.Some? <==> KeyBytes(base64String).Some?
    ensures r.Some? ==> fresh(r.value) && r.value[..] == KeyBytes(base64String).value
  {
    var padding := Repeat('=', Padding(|base64String|));
    var base64 := ToStandard(base64String + padding);
    var decoded := Atob(base64);
    if decoded.None? {
      return None;
    }
    var rawData := decoded.value;
    var outputArray := new Byte[|rawData|];
    for i := 0 to |rawData|
      invariant forall k :: 0 <= k < i ==> outputArray[k] == rawData[k] as int
    {
      outputArray[i] := rawData[i] as int;
    }
    return Some(outputArray);
  }

  // ---------------------------------------------------------------------
  // Properties of the codec
  // ---------------------------------------------------------------------

  /** Three bytes survive the trip through four characters. */
  lemma QuadRoundTrip(a: Byte, b: Byte, c: Byte)
    ensures var v0, v1, v2, v3 := a / 4, (a % 4) * 16 + b / 16, (b % 16) * 4 + c / 64, c % 64;
      v0 * 4 + v1 / 16 == a && (v1 % 16) * 16 + v2 / 4 == b && (v2 % 4) * 64 + v3 == c
  {
  }

  lemma DecodeQuad(a: Byte, b: Byte, c: Byte, rest: string)
    requires AllB64(rest) && |rest| % 4 != 1
    ensures AllB64(Quad(a, b, c) + rest) && |Quad(a, b, c) + rest| % 4 != 1
    ensures DecodeBody(Quad(a, b, c) + rest) == [a, b, c] + DecodeBody(rest)
  {
    var q := Quad(a, b, c);
    var t := q + rest;
    assert t[0] == q[0] && t[1] == q[1] && t[2] == q[2] && t[3] == q[3];
    assert t[4..] == rest;
    TripleOfQuad(a, b, c);
  }

  /** The four values of `Quad` spell its three bytes. */
  lemma TripleOfQuad(a: Byte, b: Byte, c: Byte)
    ensures Triple(a / 4, (a % 4) * 16 + b / 16, (b % 16) * 4 + c / 64, c % 64) == [a, b, c]
  {
    QuadRoundTrip(a, b, c);
  }

  lemma {:induction false} DecodeEncodeBody(bytes: seq<Byte>)
    ensures AllB64(EncodeBody(bytes)) && |EncodeBody(bytes)| % 4 != 1
    ensures DecodeBody(EncodeBody(bytes)) == bytes
  {
    if |bytes| >= 3 {
      DecodeEncodeBody(bytes[3..]);
      DecodeQuad(bytes[0], bytes[1], bytes[2], EncodeBody(bytes[3..]));
      assert bytes == [bytes[0], bytes[1], bytes[2]] + bytes[3..];
    } else if |bytes| == 2 {
      QuadRoundTrip(bytes[0], bytes[1], 0);
    } else if |bytes| == 1 {
      QuadRoundTrip(bytes[0], 0, 0);
    }
  }

  lemma {:induction false} NoWhitespaceKept(s: string)
    requires forall i :: 0 <= i < |s| ==> !IsAsciiWhitespace(s[i])
    ensures RemoveWhitespace(s) == s
  {
    if s != [] {
      NoWhitespaceKept(s[1..]);
    }
  }

  /** Padding is what `atob` strips again. */
  lemma StripPadOf(bytes: seq<Byte>)
    ensures StripPad(Btoa(bytes)) == EncodeBody(bytes)
  {
    var e := EncodeBody(bytes);
    var s := Btoa(bytes);
    if |bytes| % 3 == 1 {
      assert s[|s| - 2..] == "==";
      assert s[..|s| - 2] == e;
    } else if |bytes| % 3 == 2 {
      assert s[|s| - 1] == '=' && s[|s| - 2] == e[|e| - 1];
      assert s[..|s| - 1] == e;
    } else {
      assert s == e;
      if |s| >= 1 {
        assert s[|s| - 1] == e[|e| - 1];
      }
    }
  }

  /** `atob` inverts `btoa`. */
  lemma AtobBtoa(bytes: seq<Byte>)
    ensures Atob(Btoa(bytes)) == Some(BinaryString(bytes))
  {
    var s := Btoa(bytes);
    assert forall i :: 0 <= i < |s| ==> !IsAsciiWhitespace(s[i]) by {
      var e := EncodeBody(bytes);
      forall i | 0 <= i < |s| ensures !IsAsciiWhitespace(s[i]) {
        if i < |e| {
          assert s[i] == e[i];
        }
      }
    }
    NoWhitespaceKept(s);
    StripPadOf(bytes);
    DecodeEncodeBody(bytes);
  }

  /** The base64url form of `bytes` without padding, as the server sends
      its VAPID key. */
  function UrlKey(bytes: seq<Byte>): (key: string)
    ensures |key| == |EncodeBody(bytes)|
  {
    var e := EncodeBody(bytes);
    seq(|e|, i requires 0 <= i < |e| => if e[i] == '+' then '-' else if e[i] == '/' then '_' else e[i])
  }

  lemma PaddedUrlKey(bytes: seq<Byte>)
    ensures Padded(UrlKey(bytes)) == Btoa(bytes)
  {
    var e := EncodeBody(bytes);
    var key := UrlKey(bytes);
    var pad := Repeat('=', Padding(|key|));
    assert pad == PadFor(|bytes|);
    var p := Padded(key);
    var s := Btoa(bytes);
    assert |p| == |s|;
    forall i | 0 <= i < |p| ensures p[i] == s[i] {
      if i < |e| {
        assert (key + pad)[i] == key[i];
      } else {
        assert (key + pad)[i] == pad[i - |e|];
      }
    }
  }

  /** Decoding the server's key gives back the key's bytes. */
  lemma KeyRoundTrip(bytes: seq<Byte>)
    ensures KeyBytes(UrlKey(bytes)) == Some(bytes)
  {
    PaddedUrlKey(bytes);
    AtobBtoa(bytes);
    assert Codes(BinaryString(bytes)) == bytes;
  }

  /** A key one character longer than a multiple of four is padded with
      three '=', of which `atob` strips only two, so decoding throws. */
  lemma OneOverFails(key: string)
    requires |key| % 4 == 1
    requires forall i :: 0 <= i < |key| ==> !IsAsciiWhitespace(key[i])
    ensures KeyBytes(key).None?
  {
    PaddedThree(key);
    ThreePadsRefused(Padded(key));
  }

  /** A key one over a multiple of four gets three '='. */
  lemma PaddedThree(key: string)
    requires |key| % 4 == 1
    requires forall i :: 0 <= i < |key| ==> !IsAsciiWhitespace(key[i])
    ensures var p := Padded(key);
      |p| % 4 == 0 && |p| >= 3 && RemoveWhitespace(p) == p &&
      p[|p| - 1] == '=' && p[|p| - 2] == '=' && p[|p| - 3] == '='
  {
    var p := Padded(key);
    PaddedTail(key);
    assert |p| == |key| + 3 by {
      assert Padding(|key|) == 3;
    }
    assert |p| - 3 >= |key|;
  }

  /** Three '=' at the end of a group of four leave a '=' inside the body
      after the padding is stripped. */
  lemma ThreePadsRefused(p: string)
    requires |p| % 4 == 0 && |p| >= 3
    requires p[|p| - 1] == '=' && p[|p| - 2] == '=' && p[|p| - 3] == '='
    requires RemoveWhitespace(p) == p
    ensures Atob(p).None?
  {
    assert p[|p| - 2..] == "==";
    var t := StripPad(p);
    assert t == p[..|p| - 2];
    assert !IsB64(t[|t| - 1]);
  }

  /** The string handed to `atob` keeps the key's lack of white space and
      ends in the padding. */
  lemma PaddedTail(key: string)
    requires forall i :: 0 <= i < |key| ==> !IsAsciiWhitespace(key[i])
    ensures RemoveWhitespace(Padded(key)) == Padded(key)
    ensures |Padded(key)| == |key| + Padding(|key|)
    ensures forall i :: |key| <= i < |Padded(key)| ==> Padded(key)[i] == '='
  {
    var q := key + Repeat('=', Padding(|key|));
    var p := Padded(key);
    forall i | 0 <= i < |p| ensures !IsAsciiWhitespace(p[i]) && (i >= |key| ==> p[i] == '=') {
      if i < |key| {
        assert q[i] == key[i];
      } else {
        assert q[i] == '=';
      }
    }
    NoWhitespaceKept(p);
  }

  // ---------------------------------------------------------------------
  // The service
  // ---------------------------------------------------------------------

  /** What the browser offers: service workers, the push manager, and
      whether registering `/sw.js` succeeds. */
  datatype Browser = Browser(hasServiceWorker: bool, hasPushManager: bool, registerSucceeds: bool)

  /** A service-worker registration, by its scope. */
  datatype Registration = Registration(scope: string)

  /** A browser push subscription: its endpoint and raw keys. */
  datatype Subscription = Subscription(endpoint: string, p256dh: seq<Byte>, auth: seq<Byte>)

  /** What is posted to the server: the endpoint and the keys in base64. */
  datatype SubscriptionInfo = SubscriptionInfo(endpoint: string, p256dh: string, auth: string)

  /** The VAPID key request: failed, or the server's answer. */
  datatype VapidResponse = VapidFailed | Vapid(configured: bool, publicKey: string)

  /** Registration succeeds exactly when `init` returns true. */
  predicate InitSucceeds(b: Browser) {
    b.hasServiceWorker && b.hasPushManager && b.registerSucceeds
  }

  function InfoOf(s: Subscription): SubscriptionInfo {
    SubscriptionInfo(s.endpoint, Btoa(s.p256dh), Btoa(s.auth))
  }

  class PushNotificationService {
    var registration: Option<Registration>
    var subscription: Option<Subscription>
    /** The application-server keys passed to the push manager. */
    var requestedKeys: seq<seq<Byte>>
    /** The bodies posted to the subscribe endpoint. */
    var posted: seq<SubscriptionInfo>
    /** The endpoints posted to the unsubscribe endpoint. */
    var unsubscribed: seq<string>

    constructor ()
      ensures registration.None? && subscription.None?
      ensures requestedKeys == [] && posted == [] && unsubscribed == []
    {
      registration := None;
      subscription := None;
      requestedKeys := [];
      posted := [];
      unsubscribed := [];
    }

    /** `init`: registers the service worker with scope "/" when the browser
        supports it. */
    method Init(browser: Browser) returns (ok: bool)
      modifies this
      ensures ok <==> InitSucceeds(browser)
      ensures registration == if ok then Some(Registration("/")) else old(registration)
      ensures subscription == old(subscription) && requestedKeys == old(requestedKeys)
      ensures posted == old(posted) && unsubscribed == old(unsubscribed)
    {
      if !browser.hasServiceWorker || !browser.hasPushManager || !browser.registerSucceeds {
        return false;
      }
      registration := Some(Registration("/"));
      return true;
    }

    /** `subscribe`. `existing` is what the push manager reports, `permission`
        the user's answer, `created` the new subscription (`None` where the
        push manager throws) and `postOk` whether the server accepted it. */
    method Subscribe(browser: Browser, existing: Option<Subscription>, permission: string,
                     vapid: VapidResponse, created: Option<Subscription>, postOk: bool)
      returns (ok: bool)
      modifies this
      ensures old(registration).None? && !InitSucceeds(browser) ==>
        !ok && registration == old(registration) && subscription == old(subscription) &&
        posted == old(posted)
      ensures registration.Some? || !ok
      ensures unsubscribed == old(unsubscribed)
      ensures registration.Some? && existing.Some? ==>
        ok && subscription == existing && posted == old(posted) &&
        requestedKeys == old(requestedKeys)
      ensures registration.Some? && existing.None? && permission != "granted" ==>
        !ok && subscription == old(subscription) && posted == old(posted)
      ensures registration.Some? && existing.None? && permission == "granted" &&
              (vapid.VapidFailed? || !vapid.configured) ==>
        !ok && subscription == old(subscription) && posted == old(posted)
      ensures registration.Some? && existing.None? && permission == "granted" &&
              vapid.Vapid? && vapid.configured ==>
        (KeyBytes(vapid.publicKey).None? ==>
          !ok && subscription == old(subscription) && requestedKeys == old(requestedKeys)) &&
        (KeyBytes(vapid.publicKey).Some? ==>
          requestedKeys == old(requestedKeys) + [KeyBytes(vapid.publicKey).value] &&
          (created.None? ==> !ok && subscription == old(subscription) && posted == old(posted)) &&
          (created.Some? ==>
            subscription == created && posted == old(posted) + [InfoOf(created.value)] &&
            ok == postOk))
      ensures ok ==> subscription.Some?
    {
      if registration.None? {
        var initialized := Init(browser);
        if !initialized {
          return false;
        }
      }
      if existing.Some? {
        subscription := existing;
        return true;
      }
      if permission != "granted" {
        return false;
      }
      if vapid.VapidFailed? || !vapid.configured {
        return false;
      }
      var key := UrlBase64ToUint8Array(vapid.publicKey);
      if key.None? {
        return false;
      }
      requestedKeys := requestedKeys + [key.value[..]];
      if created.None? {
        return false;
      }
      subscription := created;
      posted := posted + [InfoOf(created.value)];
      return postOk;
    }

    /** `unsubscribe`. `existing` is what the push manager reports;
        `browserOk` and `postOk` whether the browser and the server
        calls succeed. */
    method Unsubscribe(existing: Option<Subscription>, browserOk: bool, postOk: bool)
      returns (ok: bool)
      modifies this
      ensures registration == old(registration) && posted == old(posted)
      ensures requestedKeys == old(requestedKeys)
      ensures var current := if old(subscription).None? && old(registration).Some? && existing.Some?
                             then existing else old(subscription);
        (current.None? ==> ok && subscription.None? && unsubscribed == old(unsubscribed)) &&
        (current.Some? && !browserOk ==>
          !ok && subscription == current && unsubscribed == old(unsubscribed)) &&
        (current.Some? && browserOk ==>
          unsubscribed == old(unsubscribed) + [current.value.endpoint] &&
          ok == postOk && subscription == (if postOk then None else current))
      ensures ok ==> subscription.None?
    {
      if subscription.None? && registration.Some? && existing.Some? {
        subscription := existing;
      }
      if subscription.Some? {
        if !browserOk {
          return false;
        }
        unsubscribed := unsubscribed + [subscription.value.endpoint];
        if !postOk {
          return false;
        }
        subscription := None;
      }
      return true;
    }

    /** `isSubscribed`: registers first when needed; `current` is what the
        push manager reports. */
    method IsSubscribed(browser: Browser, current: Option<Subscription>) returns (b: bool)
      modifies this
      ensures registration == (if old(registration).None? && InitSucceeds(browser)
                               then Some(Registration("/")) else old(registration))
      ensures registration.None? ==> !b && subscription == old(subscription)
      ensures registration.Some? ==> subscription == current && (b <==> current.Some?)
      ensures posted == old(posted) && unsubscribed == old(unsubscribed)
      ensures requestedKeys == old(requestedKeys)
    {
      if registration.None? {
        var _ := Init(browser);
      }
      if registration.None? {
        return false;
      }
      subscription := current;
      return current.Some?;
    }
  }
}

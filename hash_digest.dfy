/**
 * The message authentication between the plugin and the gateway: the
 * canonical "Name=value&..." string built from the merchant credentials and a
 * fixed list of request variables, the digest computed over it with the
 * configured hash method, and the check of a received HashDigest variable.
 *
 * md5, sha1 and hash_hmac are foreign primitives; they are carried as the
 * function-valued fields of a `Digests` value so that nothing is assumed
 * about them.
 */
module HashDigest {
  import opened PhpStrings
  import opened PhpArrays

  /** The primitives: md5($data), sha1($data), hash_hmac($algo, $data, $key). */
  datatype Digests = Digests(
    md5: string -> string,
    sha1: string -> string,
    hmac: (string, string, string) -> string)

  /** Request types of the digest check. */
  const ReqNotification := "0"
  const ReqCustomerRedirect := "1"

  /** The request variables a notification's digest covers, in digest order. */
  const NotificationFields: seq<string> := [
    "StatusCode", "Message", "PreviousStatusCode", "PreviousMessage",
    "CrossReference", "Amount", "CurrencyCode", "OrderID", "TransactionType",
    "TransactionDateTime", "OrderDescription", "CustomerName",
    "Address1", "Address2", "Address3", "Address4", "City", "State",
    "PostCode", "CountryCode", "EmailAddress", "PhoneNumber"]

  /** The request variables a customer redirect's digest covers. */
  const RedirectFields: seq<string> := ["CrossReference", "OrderID"]

  /** The incoming HTTP request: its method and its query and form variables. */
  datatype HttpRequest = HttpRequest(
    requestMethod: string,
    query: Assoc<string, string>,
    form: Assoc<string, string>)

  function ValueOr(a: Assoc<string, string>, k: string, default: string): string
  {
    match Lookup(a, k)
    case Some(v) => v
    case None => default
  }

  /**
   * `get_http_var($field, $default, $method)`: the variable from the query
   * for GET and from the form for POST, the default for a missing variable or
   * any other method; an empty method means the request's own.
   */
  function GetHttpVar(req: HttpRequest, field: string, default: string, requestMethod: string): (r: string)
    ensures var m := if PhpEmpty(requestMethod) then req.requestMethod else requestMethod;
      (m == "GET" && HasKey(req.query, field) ==> r == Lookup(req.query, field).value) &&
      (m == "POST" && HasKey(req.form, field) ==> r == Lookup(req.form, field).value) &&
      (!(m == "GET" && HasKey(req.query, field)) && !(m == "POST" && HasKey(req.form, field)) ==> r == default)
  {
    var m := if PhpEmpty(requestMethod) then req.requestMethod else requestMethod;
    if m == "GET" then ValueOr(req.query, field, default)
    else if m == "POST" then ValueOr(req.form, field, default)
    else default
  }

  /**
   * The form variable `wc_get_post_data_by_key($key)` reads, or '' when
   * missing. WooCommerce also passes the value through `wc_clean`
   * (unslashing, trimming, collapsing whitespace, stripping tags and
   * percent-encoded octets); that cleaning is not applied here, so the value
   * is the raw one.
   */
  function PostData(req: HttpRequest, key: string): string
  {
    ValueOr(req.form, key, "")
  }

  // ---------------------------------------------------------------------------
  // The canonical string
  // ---------------------------------------------------------------------------

  function Item(p: (string, string)): string
  {
    p.0 + "=" + p.1
  }

  function Items(pairs: seq<(string, string)>): (r: seq<string>)
    ensures |r| == |pairs|
    ensures forall i :: 0 <= i < |pairs| ==> r[i] == Item(pairs[i])
  {
    if pairs == [] then [] else [Item(pairs[0])] + Items(pairs[1..])
  }

  /** "k1=v1&k2=v2&...": the form every digested string takes. */
  function Encode(pairs: seq<(string, string)>): string
  {
    Join("&", Items(pairs))
  }

  function Credentials(merchantId: string, password: string): seq<(string, string)>
  {
    [("MerchantID", merchantId), ("Password", password)]
  }

  /** Each listed field paired with its value in the request ('' when missing). */
  function RequestPairs(req: HttpRequest, fields: seq<string>): (r: seq<(string, string)>)
    ensures |r| == |fields|
    ensures forall i :: 0 <= i < |fields| ==> r[i] == (fields[i], GetHttpVar(req, fields[i], "", ""))
  {
    if fields == [] then [] else [(fields[0], GetHttpVar(req, fields[0], "", ""))] + RequestPairs(req, fields[1..])
  }

  /** The field list for a request type, None for an unknown type. */
  function FieldsFor(requestType: string): (r: Option<seq<string>>)
    ensures r.Some? <==> requestType == ReqNotification || requestType == ReqCustomerRedirect
  {
    if requestType == ReqNotification then Some(NotificationFields)
    else if requestType == ReqCustomerRedirect then Some(RedirectFields)
    else None
  }

  /** The value `build_variables_string` is proved to return (None stands for PHP's false). */
  function VariablesString(merchantId: string, password: string, req: HttpRequest, requestType: string): Option<string>
  {
    match FieldsFor(requestType)
    case Some(fields) => Some(Encode(Credentials(merchantId, password) + RequestPairs(req, fields)))
    case None => None
  }

  /** `build_variables_string($request_type)`: credentials first, then "&Field=value" per listed field. */
  method BuildVariablesString(merchantId: string, password: string, req: HttpRequest, requestType: string)
    returns (r: Option<string>)
    ensures r == VariablesString(merchantId, password, req, requestType)
  {
    r := None;
    var fields := FieldsFor(requestType);
    if fields.Some? {
      var s := EncodeRequest(merchantId, password, req, fields.value);
      r := Some(s);
    }
  }

  /** The loop of `build_variables_string`: one "&Field=value" per field, appended in list order. */
  method EncodeRequest(merchantId: string, password: string, req: HttpRequest, fs: seq<string>)
    returns (acc: string)
    ensures acc == Encode(Credentials(merchantId, password) + RequestPairs(req, fs))
  {
    var creds := Credentials(merchantId, password);
    acc := "MerchantID=" + merchantId + "&Password=" + password;
    var i := 0;
    assert creds + RequestPairs(req, fs[..0]) == creds;
    assert "MerchantID" + "=" + merchantId == "MerchantID=" + merchantId;
    assert "Password" + "=" + password == "Password=" + password;
    assert Items(creds) == ["MerchantID=" + merchantId, "Password=" + password];
    assert Join("&", Items(creds)) == "MerchantID=" + merchantId + "&" + ("Password=" + password);
    assert "MerchantID=" + merchantId + "&" + ("Password=" + password) == acc;
    while i < |fs|
      invariant 0 <= i <= |fs|
      invariant acc == Encode(creds + RequestPairs(req, fs[..i]))
    {
      var v := GetHttpVar(req, fs[i], "", "");
      RequestPairsSnoc(req, fs, i);
      EncodeSnoc(creds + RequestPairs(req, fs[..i]), (fs[i], v));
      assert creds + RequestPairs(req, fs[..i + 1]) == creds + RequestPairs(req, fs[..i]) + [(fs[i], v)];
      acc := acc + "&" + fs[i] + "=" + v;
      i := i + 1;
    }
    assert fs[..|fs|] == fs;
  }

  lemma RequestPairsSnoc(req: HttpRequest, fs: seq<string>, i: nat)
    requires i < |fs|
    ensures RequestPairs(req, fs[..i + 1]) == RequestPairs(req, fs[..i]) + [(fs[i], GetHttpVar(req, fs[i], "", ""))]
  {
  }

  lemma EncodeSnoc(ps: seq<(string, string)>, p: (string, string))
    requires |ps| >= 1
    ensures Encode(ps + [p]) == Encode(ps) + "&" + p.0 + "=" + p.1
  {
    assert Items(ps + [p]) == Items(ps) + [Item(p)];
    JoinSnoc("&", Items(ps), Item(p));
  }

  /** The digested string starts with the credentials, whatever the request holds. */
  lemma {:induction false} CredentialsFirst(merchantId: string, password: string, req: HttpRequest, requestType: string)
    requires FieldsFor(requestType).Some?
    ensures var head := "MerchantID=" + merchantId + "&Password=" + password;
      var v := VariablesString(merchantId, password, req, requestType).value;
      |v| >= |head| && v[..|head|] == head
  {
    EncodeCredentialsFirst(merchantId, password, RequestPairs(req, FieldsFor(requestType).value));
  }

  /** Whatever pairs follow the credentials, their encoding comes first. */
  lemma EncodeCredentialsFirst(merchantId: string, password: string, pairs: seq<(string, string)>)
    ensures var head := "MerchantID=" + merchantId + "&Password=" + password;
      var v := Encode(Credentials(merchantId, password) + pairs);
      |v| >= |head| && v[..|head|] == head
  {
    var head := "MerchantID=" + merchantId + "&Password=" + password;
    var creds := Credentials(merchantId, password);
    assert "MerchantID" + "=" + merchantId == "MerchantID=" + merchantId;
    assert "Password" + "=" + password == "Password=" + password;
    assert Items(creds) == ["MerchantID=" + merchantId, "Password=" + password];
    var items := Items(creds + pairs);
    assert items[..2] == Items(creds);
    assert Join("&", items[..2]) == head;
    if |items| > 2 {
      JoinPrefix(items);
    } else {
      assert items == items[..2];
    }
  }

  lemma JoinPrefix(items: seq<string>)
    requires |items| > 2
    ensures Join("&", items) == Join("&", items[..2]) + "&" + Join("&", items[2..])
  {
    assert items[1..][1..] == items[2..];
  }

  // ---------------------------------------------------------------------------
  // Reading the canonical string back
  // ---------------------------------------------------------------------------

  function FirstIndex(s: string, c: char): (r: Option<nat>)
    ensures r.Some? ==> r.value < |s| && s[r.value] == c && NoChar(s[..r.value], c)
    ensures r.None? ==> NoChar(s, c)
  {
    if s == [] then None
    else if s[0] == c then Some(0)
    else
      match FirstIndex(s[1..], c)
      case Some(i) =>
        assert s[..i + 1] == [s[0]] + s[1..][..i];
        Some(i + 1)
      case None => None
  }

  /** "k=v" split at its first '='. */
  function SplitItem(s: string): (string, string)
  {
    match FirstIndex(s, '=')
    case Some(i) => (s[..i], s[i + 1..])
    case None => (s, "")
  }

  /** Splits "k1=v1&k2=v2" into its pairs. */
  function Decode(s: string): seq<(string, string)>
  {
    var parts := Split(s, '&');
    seq(|parts|, i requires 0 <= i < |parts| => SplitItem(parts[i]))
  }

  /** A pair survives the encoding when its name has no '&' or '=' and its value no '&'. */
  predicate Encodable(p: (string, string))
  {
    NoChar(p.0, '&') && NoChar(p.0, '=') && NoChar(p.1, '&')
  }

  lemma {:induction false} FirstIndexAt(s: string, c: char, i: nat)
    requires i < |s| && s[i] == c && NoChar(s[..i], c)
    ensures FirstIndex(s, c) == Some(i)
  {
    if i > 0 {
      assert s[0] == s[..i][0];
      assert s[1..][..i - 1] == s[..i][1..];
      FirstIndexAt(s[1..], c, i - 1);
    }
  }

  lemma SplitItemOf(p: (string, string))
    requires NoChar(p.0, '=')
    ensures SplitItem(Item(p)) == p
  {
    var s := Item(p);
    assert s[..|p.0|] == p.0;
    FirstIndexAt(s, '=', |p.0|);
    assert s[|p.0| + 1..] == p.1;
  }

  lemma NoCharConcat(a: string, b: string, c: char)
    requires NoChar(a, c) && NoChar(b, c)
    ensures NoChar(a + b, c)
  {
    forall i | 0 <= i < |a + b| ensures (a + b)[i] != c {
      if i < |a| { assert (a + b)[i] == a[i]; } else { assert (a + b)[i] == b[i - |a|]; }
    }
  }

  /** The canonical form is a faithful encoding: reading it back gives the pairs it was built from. */
  lemma DecodeEncode(pairs: seq<(string, string)>)
    requires |pairs| >= 1
    requires forall i :: 0 <= i < |pairs| ==> Encodable(pairs[i])
    ensures Decode(Encode(pairs)) == pairs
  {
    var items := Items(pairs);
    forall i | 0 <= i < |items| ensures NoChar(items[i], '&') {
      NoCharConcat(pairs[i].0, "=", '&');
      NoCharConcat(pairs[i].0 + "=", pairs[i].1, '&');
    }
    SplitJoin(items, '&');
    forall i | 0 <= i < |pairs| ensures SplitItem(items[i]) == pairs[i] {
      SplitItemOf(pairs[i]);
    }
  }

  predicate RequestEncodable(req: HttpRequest, fields: seq<string>)
  {
    forall i :: 0 <= i < |fields| ==> NoChar(GetHttpVar(req, fields[i], "", ""), '&')
  }

  predicate PlainChar(c: char)
  {
    'a' <= c <= 'z' || 'A' <= c <= 'Z' || '0' <= c <= '9'
  }

  /** A name made of letters and digits only. */
  predicate PlainName(s: string)
  {
    forall i :: 0 <= i < |s| ==> PlainChar(s[i])
  }

  predicate NamesEncodable(fields: seq<string>)
  {
    forall i :: 0 <= i < |fields| ==> PlainName(fields[i])
  }

  /** Both digest field lists are plain names. */
  lemma FieldListsEncodable()
    ensures NamesEncodable(NotificationFields) && NamesEncodable(RedirectFields)
  {
    NotificationNamesPlain();
    assert RedirectFields[0] == "CrossReference" && RedirectFields[1] == "OrderID";
  }

  lemma NotificationNamesPlain()
    ensures NamesEncodable(NotificationFields)
  {
    var names := NotificationFields;
    forall i | 0 <= i < |names| ensures PlainName(names[i]) {
      if i < 11 { NamesPlainLow(i); } else { NamesPlainHigh(i); }
    }
  }

  lemma NamesPlainLow(i: nat)
    requires 0 <= i < 11
    ensures PlainName(NotificationFields[i])
  {
    var s := NotificationFields[i];
    if i == 0 { assert s == "StatusCode"; }
    else if i == 1 { assert s == "Message"; }
    else if i == 2 { assert s == "PreviousStatusCode"; }
    else if i == 3 { assert s == "PreviousMessage"; }
    else if i == 4 { assert s == "CrossReference"; }
    else if i == 5 { assert s == "Amount"; }
    else if i == 6 { assert s == "CurrencyCode"; }
    else if i == 7 { assert s == "OrderID"; }
    else if i == 8 { assert s == "TransactionType"; }
    else if i == 9 { assert s == "TransactionDateTime"; }
    else { assert s == "OrderDescription"; }
  }

  lemma NamesPlainHigh(i: nat)
    requires 11 <= i < 22
    ensures PlainName(NotificationFields[i])
  {
    var s := NotificationFields[i];
    if i == 11 { assert s == "CustomerName"; }
    else if i == 12 { assert s == "Address1"; }
    else if i == 13 { assert s == "Address2"; }
    else if i == 14 { assert s == "Address3"; }
    else if i == 15 { assert s == "Address4"; }
    else if i == 16 { assert s == "City"; }
    else if i == 17 { assert s == "State"; }
    else if i == 18 { assert s == "PostCode"; }
    else if i == 19 { assert s == "CountryCode"; }
    else if i == 20 { assert s == "EmailAddress"; }
    else { assert s == "PhoneNumber"; }
  }

  lemma EncodedPairs(mid: string, pw: string, req: HttpRequest, fields: seq<string>)
    requires NoChar(mid, '&') && NoChar(pw, '&')
    requires NamesEncodable(fields) && RequestEncodable(req, fields)
    ensures forall i :: 0 <= i < |Credentials(mid, pw) + RequestPairs(req, fields)| ==>
      Encodable((Credentials(mid, pw) + RequestPairs(req, fields))[i])
  {
  }

  /**
   * The encoding determines the values: when no value contains '&', two
   * requests encoding to the same string agree on every listed field.
   */
  lemma EncodingDeterminesValues(mid: string, pw: string, req1: HttpRequest, req2: HttpRequest, fields: seq<string>)
    requires NoChar(mid, '&') && NoChar(pw, '&') && NamesEncodable(fields)
    requires RequestEncodable(req1, fields) && RequestEncodable(req2, fields)
    requires Encode(Credentials(mid, pw) + RequestPairs(req1, fields)) == Encode(Credentials(mid, pw) + RequestPairs(req2, fields))
    ensures forall i :: 0 <= i < |fields| ==> GetHttpVar(req1, fields[i], "", "") == GetHttpVar(req2, fields[i], "", "")
  {
    var p1 := Credentials(mid, pw) + RequestPairs(req1, fields);
    var p2 := Credentials(mid, pw) + RequestPairs(req2, fields);
    EncodedPairs(mid, pw, req1, fields);
    EncodedPairs(mid, pw, req2, fields);
    DecodeEncode(p1);
    DecodeEncode(p2);
    forall i | 0 <= i < |fields| ensures GetHttpVar(req1, fields[i], "", "") == GetHttpVar(req2, fields[i], "", "") {
      assert p1[i + 2] == p2[i + 2];
    }
  }

  /**
   * The digested string determines the request: two requests of a known type
   * with the same canonical string carry the same value in every digested
   * field (when no value contains '&'), so the digest covers each of them.
   */
  lemma CanonicalDeterminesFields(mid: string, pw: string, req1: HttpRequest, req2: HttpRequest, requestType: string)
    requires FieldsFor(requestType).Some?
    requires NoChar(mid, '&') && NoChar(pw, '&')
    requires RequestEncodable(req1, FieldsFor(requestType).value)
    requires RequestEncodable(req2, FieldsFor(requestType).value)
    requires VariablesString(mid, pw, req1, requestType) == VariablesString(mid, pw, req2, requestType)
    ensures forall i :: 0 <= i < |FieldsFor(requestType).value| ==>
      var f := FieldsFor(requestType).value[i]; GetHttpVar(req1, f, "", "") == GetHttpVar(req2, f, "", "")
  {
    FieldListsEncodable();
    EncodingDeterminesValues(mid, pw, req1, req2, FieldsFor(requestType).value);
  }

  // ---------------------------------------------------------------------------
  // Digest and check
  // ---------------------------------------------------------------------------

  predicate SupportedHashMethod(m: string)
  {
    m in {"MD5", "SHA1", "HMACMD5", "HMACSHA1", "HMACSHA256", "HMACSHA512"}
  }

  /**
   * `calculate_hash_digest($data, $hash_method, $key)`: the pre-shared key is
   * put in front of the data ("PreSharedKey=<key>&") only for MD5 and SHA1;
   * the HMAC methods key the primitive instead; any other method gives ''.
   */
  function CalculateHashDigest(d: Digests, data: string, hashMethod: string, key: string): (r: string)
    ensures hashMethod == "MD5" ==> r == d.md5("PreSharedKey=" + key + "&" + data)
    ensures hashMethod == "SHA1" ==> r == d.sha1("PreSharedKey=" + key + "&" + data)
    ensures hashMethod == "HMACMD5" ==> r == d.hmac("md5", data, key)
    ensures hashMethod == "HMACSHA1" ==> r == d.hmac("sha1", data, key)
    ensures hashMethod == "HMACSHA256" ==> r == d.hmac("sha256", data, key)
    ensures hashMethod == "HMACSHA512" ==> r == d.hmac("sha512", data, key)
    ensures !SupportedHashMethod(hashMethod) ==> r == ""
  {
    var includeKey := hashMethod == "MD5" || hashMethod == "SHA1";
    var input := if includeKey then "PreSharedKey=" + key + "&" + data else data;
    if hashMethod == "MD5" then d.md5(input)
    else if hashMethod == "SHA1" then d.sha1(input)
    else if hashMethod == "HMACMD5" then d.hmac("md5", input, key)
    else if hashMethod == "HMACSHA1" then d.hmac("sha1", input, key)
    else if hashMethod == "HMACSHA256" then d.hmac("sha256", input, key)
    else if hashMethod == "HMACSHA512" then d.hmac("sha512", input, key)
    else ""
  }

  /** `is_hash_digest_valid($request_type)`: the received and the computed digest agree up to case. */
  function IsHashDigestValid(d: Digests, merchantId: string, password: string, hashMethod: string,
                             preSharedKey: string, req: HttpRequest, requestType: string): bool
  {
    match VariablesString(merchantId, password, req, requestType)
    case None => false
    case Some(data) =>
      ToUpper(GetHttpVar(req, "HashDigest", "", "")) == ToUpper(CalculateHashDigest(d, data, hashMethod, preSharedKey))
  }

  /** A request type other than notification or redirect is never authenticated. */
  lemma UnknownRequestTypeRejected(d: Digests, mid: string, pw: string, hm: string, psk: string, req: HttpRequest, t: string)
    requires t != ReqNotification && t != ReqCustomerRedirect
    ensures !IsHashDigestValid(d, mid, pw, hm, psk, req, t)
  {
  }

  /**
   * The check holds exactly when the received digest is the digest of the
   * canonical string, in either letter case.
   */
  lemma DigestCheckMeaning(d: Digests, mid: string, pw: string, hm: string, psk: string, req: HttpRequest, t: string)
    requires FieldsFor(t).Some?
    ensures IsHashDigestValid(d, mid, pw, hm, psk, req, t) <==>
      EqualsIgnoreCase(GetHttpVar(req, "HashDigest", "", ""),
                       CalculateHashDigest(d, VariablesString(mid, pw, req, t).value, hm, psk))
  {
    UpperEqualsIgnoreCase(GetHttpVar(req, "HashDigest", "", ""),
                          CalculateHashDigest(d, VariablesString(mid, pw, req, t).value, hm, psk));
  }

  /** Comparing upper-cased strings is comparing them without regard to ASCII case. */
  lemma UpperEqualsIgnoreCase(a: string, b: string)
    ensures ToUpper(a) == ToUpper(b) <==> EqualsIgnoreCase(a, b)
  {
    if ToUpper(a) == ToUpper(b) {
      forall i | 0 <= i < |a| ensures LowerChar(a[i]) == LowerChar(b[i]) {
        assert ToUpper(a)[i] == ToUpper(b)[i];
        SameCaseChar(a[i], b[i]);
      }
    }
    if EqualsIgnoreCase(a, b) {
      forall i | 0 <= i < |a| ensures ToUpper(a)[i] == ToUpper(b)[i] {
        SameCaseChar(a[i], b[i]);
      }
    }
  }

  /** Two characters agree once upper-cased exactly when they agree once lower-cased. */
  lemma SameCaseChar(x: char, y: char)
    ensures UpperChar(x) == UpperChar(y) <==> LowerChar(x) == LowerChar(y)
  {
  }

  /**
   * With a hash method outside the supported six the computed digest is '',
   * so a request that simply omits HashDigest passes the check.
   */
  lemma UnsupportedMethodAcceptsMissingDigest(d: Digests, mid: string, pw: string, hm: string, psk: string, req: HttpRequest, t: string)
    requires FieldsFor(t).Some?
    requires !SupportedHashMethod(hm)
    requires GetHttpVar(req, "HashDigest", "", "") == ""
    ensures IsHashDigestValid(d, mid, pw, hm, psk, req, t)
  {
  }
}

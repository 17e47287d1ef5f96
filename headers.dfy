/** Header normalisation of the HTTP adapter: `processHeaders`. */
module Headers {
  import opened Strings

  /**
   * A value of an incoming header record: `null`/`undefined`, a string, a number
   * (integral numbers only) or an array of strings.
   */
  datatype HeaderValue = Absent | Text(s: string) | Number(n: int) | Texts(items: seq<string>)

  /** The string a present header value becomes. */
  function Render(v: HeaderValue): string
    requires !v.Absent?
  {
    match v
    case Text(s) => s
    case Number(n) => IntToDecimal(n)
    case Texts(items) => Join(items, "\n")
  }

  /** The record `processHeaders` returns, as one value. */
  function Digest(headers: map<string, HeaderValue>): map<string, string> {
    map k | k in headers && !headers[k].Absent? :: Render(headers[k])
  }

  /** Every output value as an input header value again. */
  function AsInput(digest: map<string, string>): map<string, HeaderValue> {
    map k | k in digest :: Text(digest[k])
  }

  /**
   * Walks the keys of `headers` one at a time, writing each present value into the
   * digest record as a string.
   */
  method ProcessHeaders(headers: map<string, HeaderValue>) returns (digest: map<string, string>)
    ensures digest.Keys == set k | k in headers && !headers[k].Absent?
    ensures forall k :: k in headers && headers[k].Text? ==> digest[k] == headers[k].s
    ensures forall k :: k in headers && headers[k].Number? ==> digest[k] == IntToDecimal(headers[k].n)
    ensures forall k :: k in headers && headers[k].Texts? ==> digest[k] == Join(headers[k].items, "\n")
    ensures digest == Digest(headers)
  {
    digest := map[];
    var pending := headers.Keys;
    while pending != {}
      invariant pending <= headers.Keys
      invariant digest.Keys == set k | k in headers && k !in pending && !headers[k].Absent?
      invariant forall k :: k in digest ==> digest[k] == Render(headers[k])
      decreases pending
    {
      var key :| key in pending;
      pending := pending - {key};
      var val := headers[key];
      if val.Absent? {
        continue;
      }
      match val {
        case Text(s) => digest := digest[key := s];
        case Number(n) => digest := digest[key := IntToDecimal(n)];
        case Texts(items) => digest := digest[key := Join(items, "\n")];
      }
    }
  }

  /** A digest fed back through the function comes out unchanged: every value is already a string. */
  lemma DigestIdempotent(headers: map<string, HeaderValue>)
    ensures Digest(AsInput(Digest(headers))) == Digest(headers)
  {
    var d := Digest(headers);
    assert Digest(AsInput(d)).Keys == d.Keys;
  }

  /** A number header reads back as the number it was. */
  lemma NumberHeaderRoundTrip(headers: map<string, HeaderValue>, key: string)
    requires key in headers && headers[key].Number?
    ensures key in Digest(headers)
    ensures ParseInt(Digest(headers)[key]) == headers[key].n
  {
    IntDecimalRoundTrip(headers[key].n);
  }
}

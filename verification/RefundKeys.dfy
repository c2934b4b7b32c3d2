/** The idempotency keys of refunds: the texts sent to Stripe, and why they can be treated as records. */
module RefundKeys {
  import opened Numerals

  datatype Key =
    | RequestKey(order: nat, requester: string, requestId: string)
    | ContentKey(order: nat, requester: string, amount: nat, reason: string, noteHash: nat)
    | StripeKey(stripeId: string)

  const UNKNOWN_REQUESTER := "unknown"

  predicate NoColon(s: string) {
    ':' !in s
  }

  function Field(head: string, rest: string): string {
    head + ":" + rest
  }

  function Text(key: Key): string {
    match key
    case RequestKey(order, requester, requestId) =>
      Field("commande", Field(Numeral(order, 10), Field("refund", Field(requester, Field("request", requestId)))))
    case ContentKey(order, requester, amount, reason, noteHash) =>
      Field("commande", Field(Numeral(order, 10), Field("refund", Field(requester,
        Field(Numeral(amount, 10), Field(reason, Numeral(noteHash, 16)))))))
    case StripeKey(stripeId) => Field("stripe", stripeId)
  }

  /** A 32-bit polynomial hash of the internal note. */
  function HashForIdempotency(note: string): (h: nat)
    ensures h < 0x1_0000_0000
  {
    if note == [] then 0
    else (HashForIdempotency(note[..|note| - 1]) * 31 + note[|note| - 1] as int) % 0x1_0000_0000
  }

  /** Every character shifts the hash by 31, within 32 bits. */
  lemma HashGrows(note: string, c: char)
    ensures HashForIdempotency("") == 0
    ensures HashForIdempotency(note + [c]) == (31 * HashForIdempotency(note) + c as int) % 0x1_0000_0000
  {
    assert (note + [c])[..|note|] == note;
  }

  /** User identifiers and refund reasons contain no separator. */
  predicate WellFormed(key: Key) {
    match key
    case RequestKey(_, requester, _) => NoColon(requester)
    case ContentKey(_, requester, _, reason, _) => NoColon(requester) && NoColon(reason)
    case StripeKey(_) => true
  }

  lemma HeadIsNoShorter(a: string, x: string, b: string, y: string)
    requires NoColon(b) && Field(a, x) == Field(b, y)
    ensures |b| <= |a|
  {
    assert Field(a, x)[|a|] == ':';
    forall k | 0 <= k < |b| ensures Field(b, y)[k] != ':' {
      assert b[k] in b;
    }
  }

  lemma FieldsSplit(a: string, x: string, b: string, y: string)
    requires NoColon(a) && NoColon(b) && Field(a, x) == Field(b, y)
    ensures a == b && x == y
  {
    HeadIsNoShorter(a, x, b, y);
    HeadIsNoShorter(b, y, a, x);
    assert a == Field(a, x)[..|a|] && b == Field(b, y)[..|b|];
    assert x == Field(a, x)[|a| + 1..] && y == Field(b, y)[|b| + 1..];
  }

  /** Two well-formed keys with the same text are the same key: same order, same requester, same request. */
  lemma TextsAreDistinct(k: Key, l: Key)
    requires WellFormed(k) && WellFormed(l) && Text(k) == Text(l)
    ensures k == l
  {
    if k.StripeKey? || l.StripeKey? {
      HeadsDiffer(k, l);
    } else {
      var tailK, tailL := Tail(k), Tail(l);
      FieldsSplit("commande", AfterCommande(k), "commande", AfterCommande(l));
      FieldsSplit(Numeral(k.order, 10), Field("refund", Field(k.requester, tailK)),
                  Numeral(l.order, 10), Field("refund", Field(l.requester, tailL)));
      NumeralsAreDistinct(k.order, l.order, 10);
      FieldsSplit("refund", Field(k.requester, tailK), "refund", Field(l.requester, tailL));
      FieldsSplit(k.requester, tailK, l.requester, tailL);
      TailsAreDistinct(k, l);
    }
  }

  function Tail(key: Key): string
    requires !key.StripeKey?
  {
    match key
    case RequestKey(_, _, requestId) => Field("request", requestId)
    case ContentKey(_, _, amount, reason, noteHash) =>
      Field(Numeral(amount, 10), Field(reason, Numeral(noteHash, 16)))
  }

  function AfterCommande(key: Key): string
    requires !key.StripeKey?
  {
    Field(Numeral(key.order, 10), Field("refund", Field(key.requester, Tail(key))))
  }

  lemma HeadsDiffer(k: Key, l: Key)
    requires (k.StripeKey? || l.StripeKey?) && Text(k) == Text(l)
    ensures k == l
  {
    var rest := (key: Key) => if key.StripeKey? then key.stripeId else AfterCommande(key);
    FieldsSplit(if k.StripeKey? then "stripe" else "commande", rest(k),
                if l.StripeKey? then "stripe" else "commande", rest(l));
  }

  lemma TailsAreDistinct(k: Key, l: Key)
    requires !k.StripeKey? && !l.StripeKey? && WellFormed(k) && WellFormed(l)
    requires k.order == l.order && k.requester == l.requester && Tail(k) == Tail(l)
    ensures k == l
  {
    match (k, l)
    case (RequestKey(_, _, x), RequestKey(_, _, y)) => FieldsSplit("request", x, "request", y);
    case (RequestKey(_, _, x), ContentKey(_, _, a, r, h)) =>
      FieldsSplit("request", x, Numeral(a, 10), Field(r, Numeral(h, 16)));
    case (ContentKey(_, _, a, r, h), RequestKey(_, _, x)) =>
      FieldsSplit("request", x, Numeral(a, 10), Field(r, Numeral(h, 16)));
    case (ContentKey(_, _, a, r, h), ContentKey(_, _, b, q, g)) =>
      FieldsSplit(Numeral(a, 10), Field(r, Numeral(h, 16)), Numeral(b, 10), Field(q, Numeral(g, 16)));
      FieldsSplit(r, Numeral(h, 16), q, Numeral(g, 16));
      NumeralsAreDistinct(a, b, 10);
      NumeralsAreDistinct(h, g, 16);
  }
}

/**
 The identity of a message: the text the service hashes into its idempotency key. SHA-1 is
 taken to be injective on these texts, so a key is represented by the fields of its text.
 */
module IdempotencyKey {

  datatype Key = Key(kind: string, ruleId: nat, subjectId: nat, recipientId: nat, date: int)

  /** The list sent to a recruiter: part 1 keeps rule id 0, later parts use their number. */
  function BatchKey(recruiter: nat, date: int, part: nat): Key {
    Key("batch_reminder", if part == 1 then 0 else part, 0, recruiter, date)
  }

  function Digit(d: nat): char
    requires d < 10
  {
    '0' + d as char
  }

  function Decimal(n: nat): (s: string)
    ensures |s| > 0 && forall i :: 0 <= i < |s| ==> '0' <= s[i] <= '9'
  {
    if n < 10 then [Digit(n)] else Decimal(n / 10) + [Digit(n % 10)]
  }

  function Number(s: string): nat
    requires forall i :: 0 <= i < |s| ==> '0' <= s[i] <= '9'
  {
    if s == [] then 0 else Number(s[..|s| - 1]) * 10 + (s[|s| - 1] - '0') as nat
  }

  /** The text under the hash; `iso` writes a local date. */
  function Raw(k: Key, iso: int -> string): string {
    k.kind + "|" + (Decimal(k.ruleId) + "|" + (Decimal(k.subjectId) + "|"
    + (Decimal(k.recipientId) + "|" + iso(k.date))))
  }

  lemma {:induction false} DecimalReadsBack(n: nat)
    ensures Number(Decimal(n)) == n
  {
    if n >= 10 {
      DecimalReadsBack(n / 10);
      var s := Decimal(n);
      assert s[..|s| - 1] == Decimal(n / 10);
    } else {
      assert Decimal(n)[..0] == [];
    }
  }

  lemma FirstBar(a: string, x: string, b: string, y: string)
    requires '|' !in b && a + "|" + x == b + "|" + y
    ensures |a| >= |b|
  {
    assert (a + "|" + x)[|a|] == '|';
    assert forall i :: 0 <= i < |b| ==> (b + "|" + y)[i] == b[i];
  }

  lemma CutAtBar(a: string, x: string, b: string, y: string)
    requires '|' !in a && '|' !in b && a + "|" + x == b + "|" + y
    ensures a == b && x == y
  {
    var s := a + "|" + x;
    FirstBar(a, x, b, y);
    FirstBar(b, y, a, x);
    assert a == s[..|a|] && b == s[..|b|];
    assert x == s[|a| + 1..] && y == s[|b| + 1..];
  }

  lemma NoBarInDecimal(n: nat)
    ensures '|' !in Decimal(n)
  {
  }

  lemma CutNumber(m: nat, x: string, n: nat, y: string)
    requires Decimal(m) + "|" + x == Decimal(n) + "|" + y
    ensures m == n && x == y
  {
    NoBarInDecimal(m);
    NoBarInDecimal(n);
    CutAtBar(Decimal(m), x, Decimal(n), y);
    DecimalReadsBack(m);
    DecimalReadsBack(n);
  }

  /** Different kinds, rules, subjects, recipients or dates never share a text. */
  lemma RawIsInjective(k: Key, l: Key, iso: int -> string)
    requires '|' !in k.kind && '|' !in l.kind
    requires iso(k.date) == iso(l.date) ==> k.date == l.date
    requires Raw(k, iso) == Raw(l, iso)
    ensures k == l
  {
    var k3, l3 := Decimal(k.recipientId) + "|" + iso(k.date), Decimal(l.recipientId) + "|" + iso(l.date);
    var k2, l2 := Decimal(k.subjectId) + "|" + k3, Decimal(l.subjectId) + "|" + l3;
    var k1, l1 := Decimal(k.ruleId) + "|" + k2, Decimal(l.ruleId) + "|" + l2;
    CutAtBar(k.kind, k1, l.kind, l1);
    CutNumber(k.ruleId, k2, l.ruleId, l2);
    CutNumber(k.subjectId, k3, l.subjectId, l3);
    CutNumber(k.recipientId, iso(k.date), l.recipientId, iso(l.date));
  }

  /** The parts of one day's lists have distinct keys per recruiter and part. */
  lemma BatchKeysDistinct(r: nat, s: nat, date: int, m: nat, n: nat)
    requires m >= 1 && n >= 1
    ensures BatchKey(r, date, m) == BatchKey(s, date, n) <==> r == s && m == n
  {
  }
}

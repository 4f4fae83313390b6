/** The identifier under which backends know a user, and the parser that gets the user id
    back out of the name of a traffic counter. */
module Identifier {
  import opened Model

  function Digit(d: nat): char
    requires d < 10
  {
    "0123456789"[d]
  }

  /** `n` in decimal, as the `%d` verb prints it. */
  function Decimal(n: nat): (s: string)
    ensures |s| > 0
    ensures forall i :: 0 <= i < |s| ==> '0' <= s[i] <= '9'
  {
    if n < 10 then [Digit(n)] else Decimal(n / 10) + [Digit(n % 10)]
  }

  function UserIdentifier(uid: Uid, username: string): string {
    Decimal(uid) + "." + username
  }

  function DigitValue(c: char): nat
    requires '0' <= c <= '9'
  {
    c as nat - '0' as nat
  }

  predicate AllDigits(s: string) {
    forall i :: 0 <= i < |s| ==> '0' <= s[i] <= '9'
  }

  function DecimalValue(s: string): nat
    requires AllDigits(s)
  {
    if s == "" then 0 else DecimalValue(s[..|s| - 1]) * 10 + DigitValue(s[|s| - 1])
  }

  lemma {:induction false} DecimalReads(n: nat)
    ensures DecimalValue(Decimal(n)) == n
  {
    if n >= 10 {
      DecimalReads(n / 10);
      var s := Decimal(n);
      assert s[..|s| - 1] == Decimal(n / 10);
    } else {
      assert Decimal(n)[..0] == "";
      assert DecimalValue("") == 0;
    }
  }

  /** The position of the first `c`, or the length of `s` if there is none. */
  function IndexOf(s: string, c: char): (i: nat)
    ensures i <= |s|
    ensures forall j :: 0 <= j < i ==> s[j] != c
    ensures i < |s| ==> s[i] == c
  {
    if s == "" then 0 else if s[0] == c then 0 else 1 + IndexOf(s[1..], c)
  }

  predicate SeparatorAt(s: string, i: nat) {
    i + 3 <= |s| && s[i] == '>' && s[i + 1] == '>' && s[i + 2] == '>'
  }

  /** The position of the first `>>>`, or the length of `s` if there is none. */
  function IndexOfSeparator(s: string): (i: nat)
    ensures i <= |s|
    ensures i < |s| ==> SeparatorAt(s, i)
    ensures forall j :: 0 <= j < i ==> !SeparatorAt(s, j)
  {
    if s == "" then 0
    else if SeparatorAt(s, 0) then 0
    else
      var i := IndexOfSeparator(s[1..]);
      assert forall j: nat :: 0 < j ==> (SeparatorAt(s, j) <==> SeparatorAt(s[1..], j - 1));
      1 + i
  }

  /** The pieces of `s` between the separators; always at least one. */
  function Split(s: string): (parts: seq<string>)
    ensures |parts| > 0
    decreases |s|
  {
    var i := IndexOfSeparator(s);
    if i == |s| then [s] else [s[..i]] + Split(s[i + 3..])
  }

  predicate IsSpace(c: char) {
    var n := c as int;
    || 0x09 <= n <= 0x0d || n == 0x20 || n == 0x85 || n == 0xa0 || n == 0x1680 || 0x2000 <= n <= 0x200a
    || n == 0x2028 || n == 0x2029 || n == 0x202f || n == 0x205f || n == 0x3000
  }

  function LeadingDigits(s: string): (digits: string)
    ensures AllDigits(digits) && digits <= s
    ensures |digits| < |s| ==> !('0' <= s[|digits|] <= '9')
  {
    if s == "" || !('0' <= s[0] <= '9') then "" else [s[0]] + LeadingDigits(s[1..])
  }

  /** Scanning an unsigned 32-bit number: blanks are skipped, but not over a line end, and
      whatever follows the digits is ignored. The target stays 0 when there are no digits
      or the number is too large. */
  function ScanUid(s: string): Uid {
    if s == "" || s[0] == '\n' then 0
    else if IsSpace(s[0]) then ScanUid(s[1..])
    else
      var value := DecimalValue(LeadingDigits(s));
      if value < 0x1_0000_0000 then value else 0
  }

  /** The two counter readers differ in one point: sing-box ignores an identifier that
      begins with its dot, xray counts it for user 0. */
  datatype Reader = Xray | SingBox

  /** The user a counter belongs to, or nothing if its name is not a user's counter. */
  function CounterUid(reader: Reader, name: string): Option<Uid> {
    var parts := Split(name);
    if |parts| < 2 then None
    else
      var ident := parts[1];
      var dot := IndexOf(ident, '.');
      if dot == |ident| || (reader.SingBox? && dot == 0) then None
      else Some(ScanUid(ident[..dot]))
  }

  lemma FirstIndex(s: string, c: char, i: nat)
    requires i < |s| && s[i] == c && forall j :: 0 <= j < i ==> s[j] != c
    ensures IndexOf(s, c) == i
  {
  }

  lemma FirstSeparator(s: string, i: nat)
    requires SeparatorAt(s, i) && forall j :: 0 <= j < i ==> !SeparatorAt(s, j)
    ensures IndexOfSeparator(s) == i
  {
  }

  lemma DecimalScans(uid: Uid)
    ensures ScanUid(Decimal(uid)) == uid
  {
    hide Decimal, DecimalValue;
    DecimalReads(uid);
    OnlyDigitsLead(Decimal(uid));
  }

  lemma OnlyDigitsLead(s: string)
    requires AllDigits(s)
    ensures LeadingDigits(s) == s
  {
  }

  /** The second piece of a counter name on an identifier begins with the id and its dot. */
  lemma CounterPieces(digits: string, after: string)
    requires AllDigits(digits)
    ensures var parts := Split("user>>>" + (digits + "." + after));
            && |parts| >= 2
            && |digits| < |parts[1]| && parts[1][..|digits|] == digits && parts[1][|digits|] == '.'
  {
    var tail := digits + "." + after;
    var name := "user>>>" + tail;
    FirstSeparator(name, 4);
    assert name[7..] == tail;
    assert Split(name) == [name[..4]] + Split(tail);
    NoSeparatorInId(digits, after);
    var i := IndexOfSeparator(tail);
    assert Split(tail)[0] == tail[..i];
    assert tail[..i][..|digits|] == digits;
  }

  lemma NoSeparatorInId(digits: string, after: string)
    requires AllDigits(digits)
    ensures IndexOfSeparator(digits + "." + after) > |digits|
  {
  }

  /** Both readers get the user id back from the counter name built on the user's identifier,
      for every id, every username (dots and `>>>` included) and whatever follows it. */
  lemma CounterUidRecovers(reader: Reader, uid: Uid, username: string, rest: string)
    ensures CounterUid(reader, "user>>>" + UserIdentifier(uid, username) + rest) == Some(uid)
  {
    hide Split, ScanUid;
    var digits := Decimal(uid);
    assert "user>>>" + UserIdentifier(uid, username) + rest == "user>>>" + (digits + "." + (username + rest));
    CounterPieces(digits, username + rest);
    var ident := Split("user>>>" + (digits + "." + (username + rest)))[1];
    forall j | 0 <= j < |digits| ensures ident[j] != '.' {
      assert ident[j] == ident[..|digits|][j];
    }
    FirstIndex(ident, '.', |digits|);
    DecimalScans(uid);
  }

  /** The identifier reads as the id in decimal, without a zero in front, a dot and the username. */
  lemma IdentifierReads(uid: Uid, username: string)
    ensures var identifier := UserIdentifier(uid, username);
            var dot := IndexOf(identifier, '.');
            && 0 < dot < |identifier| && identifier[dot + 1..] == username
            && AllDigits(identifier[..dot]) && DecimalValue(identifier[..dot]) == uid
            && (identifier[0] == '0' ==> uid == 0 && dot == 1)
  {
    var digits := Decimal(uid);
    FirstIndex(UserIdentifier(uid, username), '.', |digits|);
    assert UserIdentifier(uid, username)[..|digits|] == digits;
    DecimalReads(uid);
    NoZeroInFront(uid);
  }

  lemma {:induction false} NoZeroInFront(n: nat)
    ensures Decimal(n)[0] == '0' ==> n == 0 && |Decimal(n)| == 1
  {
    if n >= 10 {
      NoZeroInFront(n / 10);
    }
  }

  /** Different users have different identifiers. */
  lemma IdentifierInjective(uid: Uid, username: string, uid': Uid, username': string)
    requires UserIdentifier(uid, username) == UserIdentifier(uid', username')
    ensures uid == uid' && username == username'
  {
    var s := UserIdentifier(uid, username);
    assert s[|Decimal(uid)|] == '.' && s[|Decimal(uid')|] == '.';
    FirstIndex(s, '.', |Decimal(uid)|);
    FirstIndex(s, '.', |Decimal(uid')|);
    assert Decimal(uid) == s[..|Decimal(uid)|] == Decimal(uid');
    DecimalReads(uid);
    DecimalReads(uid');
    assert username == s[|Decimal(uid)| + 1..] == username';
  }

  /** The one counter on which the readers disagree by their dot rule: the identifier whose
      id part is empty. */
  lemma ReadersDifferOnlyOnEmptyId(name: string)
    ensures CounterUid(Xray, name) != CounterUid(SingBox, name)
       <==> |Split(name)| >= 2 && Split(name)[1] != "" && Split(name)[1][0] == '.'
    ensures CounterUid(Xray, name) != CounterUid(SingBox, name) ==> CounterUid(Xray, name) == Some(0)
  {
  }
}

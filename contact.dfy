/**
 * The contact form's submit handler: every required field must be filled, then the email must
 * have the shape `local@domain.suffix`, before the (simulated) submission goes ahead.
 */
module ContactForm {
  import opened Options

  /** What the handler does with a submission. */
  datatype Outcome = MissingFields | InvalidEmail | Accepted

  /** A form value is truthy when it is present and not the empty string. */
  predicate Filled(field: Option<string>)
  {
    field.Some? && |field.value| > 0
  }

  /**
   * The characters JavaScript's `\s` class matches: the ASCII controls TAB to CR, SPACE, NBSP,
   * OGHAM SPACE MARK, the spaces U+2000 to U+200A, the line and paragraph separators, NNBSP,
   * MMSP, the ideographic space and the byte-order mark.
   */
  predicate IsJsSpace(c: char)
  {
    var n := c as int;
    (9 <= n <= 13) || n == 32 || n == 0xA0 || n == 0x1680 || (0x2000 <= n <= 0x200A)
    || n == 0x2028 || n == 0x2029 || n == 0x202F || n == 0x205F || n == 0x3000 || n == 0xFEFF
  }

  /** A character the class `[^\s@]` accepts. */
  predicate AtomChar(c: char)
  {
    !IsJsSpace(c) && c != '@'
  }

  /** What `[^\s@]+` matches: a non-empty run of atom characters. */
  ghost predicate Atom(s: string)
  {
    |s| > 0 && forall k :: 0 <= k < |s| ==> AtomChar(s[k])
  }

  /**
   * The strings the pattern `^[^\s@]+@[^\s@]+\.[^\s@]+$` accepts: an atom, `@`, an atom, a dot
   * and an atom. The middle and last atoms may themselves hold dots.
   */
  ghost predicate EmailShape(s: string)
  {
    exists i, j :: 0 <= i < j < |s| && s[i] == '@' && s[j] == '.'
      && Atom(s[..i]) && Atom(s[i + 1..j]) && Atom(s[j + 1..])
  }

  /** The first position of `c` in `s`. */
  function Find(s: string, c: char): (r: Option<nat>)
    ensures r.Some? ==> r.value < |s| && s[r.value] == c && c !in s[..r.value]
    ensures r.None? ==> c !in s
  {
    if |s| == 0 then None
    else if s[0] == c then Some(0)
    else match Find(s[1..], c)
      case None => None
      case Some(i) => Some(i + 1)
  }

  /** Whether every character of `s` is an atom character, scanning left to right. */
  function Clean(s: string): (b: bool)
    ensures b <==> forall k :: 0 <= k < |s| ==> AtomChar(s[k])
  {
    |s| == 0 || (AtomChar(s[0]) && Clean(s[1..]))
  }

  /**
   * The email test as a scan: find the `@`, check both sides are clean, and look for a dot
   * with at least one character on each side of it after the `@`.
   */
  function IsValidEmail(s: string): bool
  {
    match Find(s, '@')
    case None => false
    case Some(i) =>
      0 < i && i + 2 < |s| && Clean(s[..i]) && Clean(s[i + 1..]) && Find(s[i + 2..|s| - 1], '.').Some?
  }

  /** The scan accepts exactly the strings of the pattern's shape. */
  lemma EmailTestIsPattern(s: string)
    ensures IsValidEmail(s) <==> EmailShape(s)
  {
    if IsValidEmail(s) {
      ScanMatches(s);
    }
    if EmailShape(s) {
      var i, j :| 0 <= i < j < |s| && s[i] == '@' && s[j] == '.'
        && Atom(s[..i]) && Atom(s[i + 1..j]) && Atom(s[j + 1..]);
      MatchScans(s, i, j);
    }
  }

  /** An accepted string splits at its `@` and at a dot after it into three atoms. */
  lemma ScanMatches(s: string)
    requires IsValidEmail(s)
    ensures EmailShape(s)
  {
    var i := Find(s, '@').value;
    var k := Find(s[i + 2..|s| - 1], '.').value;
    var j := i + 2 + k;
    assert s[j] == s[i + 2..|s| - 1][k];
    SliceClean(s, i + 1, i + 1, j);
    SliceClean(s, i + 1, j + 1, |s|);
    assert Atom(s[..i]) && Atom(s[i + 1..j]) && Atom(s[j + 1..]);
  }

  /** A string of three atoms joined by `@` and a dot passes the scan. */
  lemma MatchScans(s: string, i: nat, j: nat)
    requires i < j < |s| && s[i] == '@' && s[j] == '.'
    requires Atom(s[..i]) && Atom(s[i + 1..j]) && Atom(s[j + 1..])
    ensures IsValidEmail(s)
  {
    FirstAt(s, i);
    forall k | i + 1 <= k < |s|
      ensures AtomChar(s[k])
    {
      if k < j {
        assert s[k] == s[i + 1..j][k - i - 1];
      } else if k > j {
        assert s[k] == s[j + 1..][k - j - 1];
      }
    }
    assert Clean(s[i + 1..]);
    var rest := s[i + 2..|s| - 1];
    assert rest[j - i - 2] == '.';
    assert Find(rest, '.').Some?;
  }

  /** A slice of a clean suffix is clean. */
  lemma SliceClean(s: string, from: nat, lo: nat, hi: nat)
    requires from <= lo <= hi <= |s|
    requires Clean(s[from..])
    ensures Clean(s[lo..hi])
  {
    forall k | 0 <= k < hi - lo
      ensures AtomChar(s[lo..hi][k])
    {
      assert s[lo..hi][k] == s[from..][lo - from + k];
    }
  }

  /** An `@` with none before it is the one `Find` reports. */
  lemma FirstAt(s: string, i: nat)
    requires i < |s| && s[i] == '@' && '@' !in s[..i]
    ensures Find(s, '@') == Some(i)
  {
    var r := Find(s, '@');
    assert s[i] in s[..i + 1];
  }

  /**
   * The submit handler: the required-fields check comes first, then the email check; only a
   * submission that passes both is sent.
   */
  function ValidateContact(name: Option<string>, email: Option<string>, message: Option<string>): (r: Outcome)
    ensures r == MissingFields <==> !(Filled(name) && Filled(email) && Filled(message))
    ensures r == InvalidEmail <==> Filled(name) && Filled(email) && Filled(message) && !EmailShape(email.value)
    ensures r == Accepted <==> Filled(name) && Filled(email) && Filled(message) && EmailShape(email.value)
  {
    EmailTestIsPattern(if email.Some? then email.value else "");
    if !Filled(name) || !Filled(email) || !Filled(message) then MissingFields
    else if !IsValidEmail(email.value) then InvalidEmail
    else Accepted
  }

  /** Examples of the pattern: a plain address passes, one without a dot after the `@` does not. */
  lemma EmailExamples()
    ensures EmailShape("a@b.co")
    ensures !EmailShape("a@b")
  {
    EmailTestIsPattern("a@b.co");
    EmailTestIsPattern("a@b");
  }
}

/** The string checks that guard requests. */
module Text {

  /** unicode.IsSpace. */
  predicate IsSpace(c: char) {
    var n := c as int;
    || 9 <= n <= 13 || n == 0x20 || n == 0x85 || n == 0xa0 || n == 0x1680
    || 0x2000 <= n <= 0x200a || n == 0x2028 || n == 0x2029 || n == 0x202f || n == 0x205f || n == 0x3000
  }

  function TrimLeft(s: string): string {
    if s != "" && IsSpace(s[0]) then TrimLeft(s[1..]) else s
  }

  function TrimRight(s: string): string {
    if s != "" && IsSpace(s[|s| - 1]) then TrimRight(s[..|s| - 1]) else s
  }

  function TrimSpace(s: string): string {
    TrimRight(TrimLeft(s))
  }

  lemma {:induction false} TrimLeftExactly(s: string, i: nat)
    requires i <= |s| && forall k :: 0 <= k < i ==> IsSpace(s[k])
    requires i == |s| || !IsSpace(s[i])
    ensures TrimLeft(s) == s[i..]
  {
    if i > 0 {
      TrimLeftExactly(s[1..], i - 1);
    }
  }

  lemma {:induction false} TrimRightExactly(s: string, j: nat)
    requires j <= |s| && forall k :: j <= k < |s| ==> IsSpace(s[k])
    requires j == 0 || !IsSpace(s[j - 1])
    ensures TrimRight(s) == s[..j]
    decreases |s|
  {
    if j < |s| {
      TrimRightExactly(s[..|s| - 1], j);
      assert s[..|s| - 1][..j] == s[..j];
    } else {
      assert s[..j] == s;
    }
  }

  /** Trimming takes away the white space at both ends and nothing else. */
  lemma TrimExactly(s: string, i: nat, j: nat)
    requires i < j <= |s| && !IsSpace(s[i]) && !IsSpace(s[j - 1])
    requires forall k :: 0 <= k < i || j <= k < |s| ==> IsSpace(s[k])
    ensures TrimSpace(s) == s[i..j]
  {
    TrimLeftExactly(s, i);
    TrimRightExactly(s[i..], j - i);
    assert s[i..][..j - i] == s[i..j];
  }

  lemma {:induction false} TrimLeftEnds(s: string)
    ensures TrimLeft(s) == "" || !IsSpace(TrimLeft(s)[0])
  {
    if s != "" {
      TrimLeftEnds(s[1..]);
    }
  }

  lemma {:induction false} TrimRightEnds(s: string)
    ensures TrimRight(s) <= s && (TrimRight(s) == "" || !IsSpace(TrimRight(s)[|TrimRight(s)| - 1]))
    decreases |s|
  {
    if s != "" {
      TrimRightEnds(s[..|s| - 1]);
    }
  }

  lemma TrimTwice(s: string)
    ensures TrimSpace(TrimSpace(s)) == TrimSpace(s)
  {
    TrimLeftEnds(s);
    TrimRightEnds(TrimLeft(s));
  }

  predicate Blank(s: string) {
    TrimSpace(s) == ""
  }

  lemma {:induction false} FirstNonSpace(s: string) returns (i: nat)
    ensures i <= |s| && (forall k :: 0 <= k < i ==> IsSpace(s[k])) && (i == |s| || !IsSpace(s[i]))
  {
    if s == "" || !IsSpace(s[0]) {
      return 0;
    }
    i := FirstNonSpace(s[1..]);
    assert forall k :: 0 < k < |s| ==> s[1..][k - 1] == s[k];
    i := i + 1;
  }

  /** A string is blank exactly when it is white space throughout. */
  lemma BlankExactly(s: string)
    ensures Blank(s) <==> forall k :: 0 <= k < |s| ==> IsSpace(s[k])
  {
    var i := FirstNonSpace(s);
    TrimLeftExactly(s, i);
    if i < |s| {
      assert s[i..][0] == s[i];
      KeepsFirst(s[i..]);
    }
  }

  lemma {:induction false} KeepsFirst(s: string)
    requires s != "" && !IsSpace(s[0])
    ensures TrimRight(s) != ""
    decreases |s|
  {
    if IsSpace(s[|s| - 1]) {
      KeepsFirst(s[..|s| - 1]);
    }
  }

  /** The number of bytes of the UTF-8 encoding. */
  function Utf8Length(s: string): nat {
    if s == "" then 0
    else
      var n := s[0] as int;
      (if n < 0x80 then 1 else if n < 0x800 then 2 else if n < 0x1_0000 then 3 else 4) + Utf8Length(s[1..])
  }

  predicate CodeStart(c: char) {
    'A' <= c <= 'Z' || '0' <= c <= '9'
  }

  /** The business code pattern: an upper-case letter or digit, then 2 to 31 of those, '_' or '-'. */
  predicate BusinessCode(value: string) {
    var v := TrimSpace(value);
    && 3 <= |v| <= 32
    && CodeStart(v[0])
    && forall i :: 1 <= i < |v| ==> CodeStart(v[i]) || v[i] == '_' || v[i] == '-'
  }

  lemma {:induction false} LastNonSpace(s: string) returns (j: nat)
    ensures j <= |s| && (forall k :: j <= k < |s| ==> IsSpace(s[k])) && (j == 0 || !IsSpace(s[j - 1]))
    decreases |s|
  {
    if s == "" || !IsSpace(s[|s| - 1]) {
      return |s|;
    }
    j := LastNonSpace(s[..|s| - 1]);
    assert forall k :: 0 <= k < |s| - 1 ==> s[..|s| - 1][k] == s[k];
  }

  /** Where the pattern begins and ends, with nothing but white space around it. */
  ghost predicate CodeAt(value: string, i: nat, j: nat) {
    && j <= |value| && 3 <= j - i <= 32 && (forall k :: 0 <= k < i || j <= k < |value| ==> IsSpace(value[k]))
    && ('A' <= value[i] <= 'Z' || '0' <= value[i] <= '9')
    && forall k :: i < k < j ==> 'A' <= value[k] <= 'Z' || '0' <= value[k] <= '9' || value[k] in {'_', '-'}
  }

  /** A business code is the pattern surrounded by white space. */
  lemma BusinessCodeExactly(value: string)
    ensures BusinessCode(value) <==> exists i: nat, j: nat :: CodeAt(value, i, j)
  {
    if BusinessCode(value) {
      BlankExactly(value);
      var i := FirstNonSpace(value);
      var j := LastNonSpace(value);
      TrimExactly(value, i, j);
      assert CodeAt(value, i, j);
    }
    if i: nat, j: nat :| CodeAt(value, i, j) {
      TrimExactly(value, i, j);
    }
  }

  /** A required name: not blank and at most 80 bytes once trimmed. */
  predicate RequiredName(value: string) {
    !Blank(value) && Utf8Length(TrimSpace(value)) <= 80
  }
}

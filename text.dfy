/**
 * The string operations the ticket model relies on, restricted to ASCII:
 * Rails' `blank?`/`present?`, Ruby `downcase` and SQL `LOWER`, substring
 * containment, and the SQL `LIKE` operator with its `%` and `_` wildcards.
 */
module Text {
  import opened Optional

  /** ASCII whitespace as matched by `[[:space:]]`: space, \t, \n, \v, \f, \r. */
  predicate IsSpace(c: char) {
    c == ' ' || c == '\t' || c == '\n' || c == '\U{B}' || c == '\U{C}' || c == '\r'
  }

  /** `String#blank?`: empty or whitespace only. */
  predicate IsBlankString(s: string) {
    forall i :: 0 <= i < |s| ==> IsSpace(s[i])
  }

  /** `Object#blank?` on a nullable string: nil, empty or whitespace only. */
  predicate IsBlank(o: Option<string>) {
    o.None? || IsBlankString(o.value)
  }

  /** `Object#present?`, the negation of `blank?`. */
  predicate IsPresent(o: Option<string>) {
    !IsBlank(o)
  }

  predicate IsUpper(c: char) {
    'A' <= c <= 'Z'
  }

  function DowncaseChar(c: char): (d: char)
    ensures !IsUpper(d)
    ensures IsUpper(c) ==> d as int == c as int + 32
    ensures !IsUpper(c) ==> d == c
  {
    if IsUpper(c) then (c as int + 32) as char else c
  }

  /** ASCII `downcase` / `LOWER`: every upper-case letter mapped, everything else kept. */
  function Downcase(s: string): string {
    if s == [] then [] else [DowncaseChar(s[0])] + Downcase(s[1..])
  }

  /** `Downcase` maps each character on its own and keeps the length. */
  lemma {:induction false} DowncaseAt(s: string)
    ensures |Downcase(s)| == |s|
    ensures forall i :: 0 <= i < |s| ==> Downcase(s)[i] == DowncaseChar(s[i])
    decreases |s|
  {
    if s != [] {
      DowncaseAt(s[1..]);
    }
  }

  /** Lower-casing neither creates nor removes blankness. */
  lemma DowncaseKeepsBlank(s: string)
    ensures IsBlankString(Downcase(s)) <==> IsBlankString(s)
  {
    var d := Downcase(s);
    DowncaseAt(s);
    forall i | 0 <= i < |s|
      ensures IsSpace(d[i]) <==> IsSpace(s[i])
    {
      assert d[i] == DowncaseChar(s[i]);
    }
  }

  /** `q` occurs in `s` as a contiguous substring. */
  predicate Contains(s: string, q: string)
    decreases |s|
  {
    q <= s || (s != [] && Contains(s[1..], q))
  }

  /** `q` occurs in `s` starting at position `i`. */
  predicate OccursAt(s: string, q: string, i: int) {
    0 <= i <= |s| - |q| && s[i..i + |q|] == q
  }

  /** An occurrence at position 0 is a prefix. */
  lemma OccursAtStart(s: string, q: string)
    ensures OccursAt(s, q, 0) <==> q <= s
  {
  }

  /** An occurrence past position 0 is an occurrence in the tail, one position earlier. */
  lemma OccursInTail(s: string, q: string, i: int)
    requires s != [] && 1 <= i
    ensures OccursAt(s, q, i) <==> OccursAt(s[1..], q, i - 1)
  {
    if i <= |s| - |q| {
      assert s[1..][i - 1..i - 1 + |q|] == s[i..i + |q|];
    }
  }

  /** `Contains` agrees with the positional definition of a substring. */
  lemma {:induction false} ContainsAt(s: string, q: string)
    ensures Contains(s, q) <==> exists i :: OccursAt(s, q, i)
    decreases |s|
  {
    OccursAtStart(s, q);
    if q <= s {
    } else if s == [] {
      assert q != [];
    } else {
      ContainsAt(s[1..], q);
      if exists i :: OccursAt(s, q, i) {
        var i :| OccursAt(s, q, i);
        OccursInTail(s, q, i);
      }
      if exists j :: OccursAt(s[1..], q, j) {
        var j :| OccursAt(s[1..], q, j);
        OccursInTail(s, q, j + 1);
      }
    }
  }

  /** A string lacking one of the characters of `q` does not contain `q`. */
  lemma {:induction false} MissingCharNotContained(s: string, q: string, c: char)
    requires c in q && c !in s
    ensures !Contains(s, q)
    decreases |s|
  {
    if s != [] {
      MissingCharNotContained(s[1..], q, c);
    }
  }

  /** Ordinary characters of a `LIKE` pattern: neither `%` nor `_`. */
  predicate NoWildcards(q: string) {
    forall i :: 0 <= i < |q| ==> q[i] != '%' && q[i] != '_'
  }

  /**
   * SQL `s LIKE p`: `%` matches any run of characters, `_` any one character,
   * every other character itself. No escape character is in effect.
   */
  predicate Like(s: string, p: string)
    decreases |s| + |p|
  {
    if p == [] then s == []
    else if p[0] == '%' then Like(s, p[1..]) || (s != [] && Like(s[1..], p))
    else s != [] && (p[0] == '_' || p[0] == s[0]) && Like(s[1..], p[1..])
  }

  /** The pattern `%` matches every string. */
  lemma {:induction false} LikeAnything(s: string)
    ensures Like(s, "%")
    decreases |s|
  {
    if s != [] {
      LikeAnything(s[1..]);
    }
  }

  /** A wildcard-free `q` followed by `%` matches exactly the strings that start with `q`. */
  lemma {:induction false} LikePrefix(s: string, q: string)
    requires NoWildcards(q)
    ensures Like(s, q + "%") <==> q <= s
    decreases |q|
  {
    if q == [] {
      assert q + "%" == "%";
      LikeAnything(s);
    } else {
      var p := q + "%";
      assert p[0] == q[0] && p[1..] == q[1..] + "%";
      assert NoWildcards(q[1..]) by {
        forall i | 0 <= i < |q[1..]| ensures q[1..][i] != '%' && q[1..][i] != '_' {
          assert q[1..][i] == q[i + 1];
        }
      }
      if s != [] {
        LikePrefix(s[1..], q[1..]);
        assert q <= s <==> q[0] == s[0] && q[1..] <= s[1..];
      }
    }
  }

  /** `s LIKE '%q%'` is substring containment whenever `q` holds no wildcard. */
  lemma {:induction false} LikeContains(s: string, q: string)
    requires NoWildcards(q)
    ensures Like(s, "%" + q + "%") <==> Contains(s, q)
    decreases |s|
  {
    var p := "%" + q + "%";
    assert p[0] == '%' && p[1..] == q + "%";
    LikePrefix(s, q);
    if s != [] {
      LikeContains(s[1..], q);
    }
  }

  lemma DowncaseKeepsNoWildcards(q: string)
    ensures NoWildcards(Downcase(q)) <==> NoWildcards(q)
  {
    var d := Downcase(q);
    DowncaseAt(q);
    forall i | 0 <= i < |q|
      ensures (d[i] != '%' && d[i] != '_') <==> (q[i] != '%' && q[i] != '_')
    {
      assert d[i] == DowncaseChar(q[i]);
    }
  }
}

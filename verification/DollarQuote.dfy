/** Choosing a dollar-quote delimiter that does not occur in a query text. */
module DollarQuote {
  import opened Sequences

  predicate At(s: string, t: string, i: nat) {
    i + |t| <= |s| && s[i..i + |t|] == t
  }

  /** `String.prototype.includes` */
  predicate Includes(s: string, t: string) {
    exists i | 0 <= i <= |s| :: At(s, t, i)
  }

  const DIGITS := "0123456789"

  function Decimal(n: nat): (s: string)
    ensures |s| > 0 && forall i | 0 <= i < |s| :: s[i] in DIGITS
  {
    (if n < 10 then "" else Decimal(n / 10)) + [DIGITS[n % 10]]
  }

  /** The number that a string of digits stands for. */
  function ValueOf(s: string): int {
    if s == "" then 0 else 10 * ValueOf(s[..|s| - 1]) + (s[|s| - 1] as int - '0' as int)
  }

  /** A number's decimal form reads back as the number and has no leading zero to spare. */
  lemma {:induction false} DecimalReads(n: nat)
    ensures ValueOf(Decimal(n)) == n
    ensures Decimal(n)[0] == '0' ==> n == 0 && |Decimal(n)| == 1
  {
    hide ValueOf;
    var front, digit := if n < 10 then "" else Decimal(n / 10), DIGITS[n % 10];
    ValueSnoc(front, digit);
    DigitIs(n % 10);
    if n >= 10 {
      DecimalReads(n / 10);
      assert Decimal(n)[0] == front[0];
    }
  }

  lemma ValueSnoc(s: string, c: char)
    ensures ValueOf(s + [c]) == 10 * ValueOf(s) + (c as int - '0' as int) && ValueOf("") == 0
  {
    assert (s + [c])[..|s|] == s;
  }

  lemma DigitIs(d: nat)
    requires d < 10
    ensures DIGITS[d] as int == '0' as int + d && (DIGITS[d] == '0' ==> d == 0)
  {
  }

  /** The candidates: `cypher`, then `cypher0`, `cypher1`, and so on. */
  function Tag(k: nat): string {
    if k == 0 then "cypher" else "cypher" + Decimal(k - 1)
  }

  function Delimiter(tag: string): string {
    "$" + tag + "$"
  }

  predicate Plain(tag: string) {
    '$' !in tag
  }

  lemma TagsArePlain(k: nat)
    ensures Plain(Tag(k))
  {
    assert '$' !in DIGITS;
  }

  lemma CommonPrefix(p: string, a: string, b: string)
    ensures p + a == p + b <==> a == b
  {
    assert (p + a)[|p|..] == a && (p + b)[|p|..] == b;
  }

  lemma TagsDistinct(j: nat, k: nat)
    requires j < k
    ensures Tag(j) != Tag(k)
  {
    hide Decimal, ValueOf;
    if j > 0 {
      CommonPrefix("cypher", Decimal(j - 1), Decimal(k - 1));
      DecimalReads(j - 1);
      DecimalReads(k - 1);
    } else {
      assert |Tag(k)| > |Tag(0)|;
    }
  }

  /** Where the shorter of two delimiters at one place ends, the longer has a dollar sign. */
  lemma EndsInside(s: string, t: string, u: string, i: nat)
    requires At(s, Delimiter(t), i) && At(s, Delimiter(u), i)
    ensures |t| < |u| ==> u[|t|] == '$'
  {
    var d, e := Delimiter(t), Delimiter(u);
    assert forall k | 0 <= k < |d| :: d[k] == s[i..i + |d|][k] == s[i + k];
    assert forall k | 0 <= k < |e| :: e[k] == s[i..i + |e|][k] == s[i + k];
    if |t| < |u| {
      assert d[|t| + 1] == '$' && e[|t| + 1] == u[|t|];
    }
  }

  /** Delimiters of plain tags that start at the same place are the same. */
  lemma SamePlace(s: string, t: string, u: string, i: nat)
    requires Plain(t) && Plain(u) && At(s, Delimiter(t), i) && At(s, Delimiter(u), i)
    ensures t == u
  {
    EndsInside(s, t, u, i);
    EndsInside(s, u, t, i);
    assert |t| == |u|;
    var d, e := Delimiter(t), Delimiter(u);
    assert d == e;
    assert t == d[1..|t| + 1] && u == e[1..|u| + 1];
  }

  /** Where the first candidates occur: each at a place of its own. */
  lemma {:induction false} Places(body: string, k: nat) returns (places: seq<nat>)
    requires forall j | 0 <= j < k :: Includes(body, Delimiter(Tag(j)))
    ensures |places| == k
    ensures forall j | 0 <= j < k :: places[j] < |body| && At(body, Delimiter(Tag(j)), places[j])
    ensures forall i, j | 0 <= i < j < k :: places[i] != places[j]
  {
    hide Tag;
    if k == 0 {
      places := [];
    } else {
      var before := Places(body, k - 1);
      var p :| 0 <= p <= |body| && At(body, Delimiter(Tag(k - 1)), p);
      places := before + [p];
      forall i | 0 <= i < k - 1 ensures before[i] != p {
        PlacesDiffer(body, i, k - 1, before[i], p);
      }
    }
  }

  lemma PlacesDiffer(body: string, i: nat, k: nat, p: nat, q: nat)
    requires i < k && At(body, Delimiter(Tag(i)), p) && At(body, Delimiter(Tag(k)), q)
    ensures p != q
  {
    hide Tag, Delimiter;
    TagsArePlain(i);
    TagsArePlain(k);
    TagsDistinct(i, k);
    if p == q {
      SamePlace(body, Tag(i), Tag(k), p);
    }
  }

  /** So no more candidates can be taken than the body has places. */
  lemma CandidatesBounded(body: string, k: nat)
    requires forall j | 0 <= j < k :: Includes(body, Delimiter(Tag(j)))
    ensures k <= |body|
  {
    var places := Places(body, k);
    DistinctBelow(places, |body|);
  }

  /* ---------- reading the quoted text back ---------- */

  /** Behind the opening delimiter, the text ends at the delimiter's first occurrence. */
  ghost predicate ClosesAt(rest: string, delimiter: string, i: nat) {
    At(rest, delimiter, i) && forall j | 0 <= j < i :: !At(rest, delimiter, j)
  }

  predicate EndsWith(s: string, t: string) {
    |t| <= |s| && s[|s| - |t|..] == t
  }

  /** The quoted text reads back as the body exactly when the body does not end with the delimiter
      less its last character; for the default delimiter, when it does not end with a dollar sign. */
  lemma RoundTrips(body: string, tag: string)
    requires Plain(tag) && !Includes(body, Delimiter(tag))
    ensures var d := Delimiter(tag);
            ClosesAt(body + d, d, |body|) <==> !EndsWith(body, d[..|d| - 1])
  {
    var d := Delimiter(tag);
    var rest, head := body + d, d[..|d| - 1];
    assert At(rest, d, |body|);
    if EndsWith(body, head) {
      var j := |body| - |head|;
      assert rest[j..j + |d|] == head + [rest[|body|]] == d;
      assert At(rest, d, j);
    } else {
      forall j | 0 <= j < |body| ensures !At(rest, d, j) {
        if At(rest, d, j) {
          OverlapIsTail(body, tag, j);
        }
      }
    }
  }

  lemma DollarsAtEnds(tag: string, m: nat)
    requires 0 < m <= |tag| && Delimiter(tag)[m] == '$'
    ensures '$' in tag
  {
    assert Delimiter(tag)[m] == tag[m - 1];
  }

  /** An occurrence that begins in the body can only share the delimiter's first dollar sign. */
  lemma OverlapIsTail(body: string, tag: string, j: nat)
    requires Plain(tag) && !Includes(body, Delimiter(tag)) && j < |body|
    requires At(body + Delimiter(tag), Delimiter(tag), j)
    ensures EndsWith(body, Delimiter(tag)[..|tag| + 1])
  {
    var d := Delimiter(tag);
    var rest := body + d;
    if j + |d| <= |body| {
      assert body[j..j + |d|] == rest[j..j + |d|];
      assert At(body, d, j);
    } else {
      var m := |body| - j;
      assert rest[j..j + |d|][m] == rest[|body|] == '$';
      if m <= |tag| {
        DollarsAtEnds(tag, m);
        assert false;
      }
      assert body[j..] == rest[j..j + |d|][..m];
    }
  }

  /** `cypherDollarQuote`: the loop stops within one candidate more than the body is long, the chosen
      delimiter, the first free one, is absent from the body, and the text reads back whole exactly
      when the body does not end with the delimiter less its last character. */
  method CypherDollarQuote(body: string) returns (delimiter: string, quoted: string, ghost k: nat)
    ensures !Includes(body, delimiter) && quoted == delimiter + body + delimiter
    ensures delimiter == if Includes(body, "$$") then Delimiter(Tag(k)) else "$$"
    ensures ClosesAt(body + delimiter, delimiter, |body|) <==> !EndsWith(body, delimiter[..|delimiter| - 1])
    ensures k <= |body| && (Includes(body, "$$") ==> forall j | 0 <= j < k :: Includes(body, Delimiter(Tag(j))))
  {
    hide Includes, Decimal, ClosesAt, EndsWith, Tag, Delimiter;
    FirstTags();
    k := 0;
    if !Includes(body, "$$") {
      RoundTrips(body, "");
      return "$$", "$$" + body + "$$", 0;
    }
    var tag := "cypher";
    var counter := 0;
    while Includes(body, Delimiter(tag))
      invariant tag == Tag(k) && counter == k
      invariant forall j | 0 <= j < k :: Includes(body, Delimiter(Tag(j)))
      decreases |body| + 1 - k
    {
      CandidatesBounded(body, k);
      NextTag(k);
      tag := "cypher" + Decimal(counter);
      counter := counter + 1;
      k := k + 1;
    }
    CandidatesBounded(body, k);
    TagsArePlain(k);
    RoundTrips(body, tag);
    return Delimiter(tag), Delimiter(tag) + body + Delimiter(tag), k;
  }

  lemma FirstTags()
    ensures Delimiter("") == "$$" && Plain("") && Tag(0) == "cypher"
  {
  }

  lemma NextTag(k: nat)
    ensures Tag(k + 1) == "cypher" + Decimal(k)
  {
  }

  /** A body that ends in a dollar sign, under the default delimiter, closes one character early. */
  lemma TrailingDollarClosesEarly()
    ensures !Includes("a$", "$$") && !ClosesAt("a$" + "$$", "$$", 2) && ClosesAt("a$" + "$$", "$$", 1)
  {
    assert "a$"[0] == 'a' && "a$$$"[0] == 'a' && "$$"[0] == '$';
    assert "a$"[0..2][0] == 'a' && "a$$$"[0..2][0] == 'a';
    assert At("a$$$", "$$", 1) && !At("a$$$", "$$", 0);
    assert "a$" + "$$" == "a$$$";
  }
}

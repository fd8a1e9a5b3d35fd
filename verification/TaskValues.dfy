/** What identifiers and metadata values are, in terms of their characters and parts. */
module TaskValues {
  import opened RuntimeTasks

  predicate IsHex(s: string) {
    forall i | 0 <= i < |s| :: s[i] in "0123456789abcdef"
  }

  lemma HexDigits(c: char)
    ensures HexDigit(c) <==> c in "0123456789abcdef"
  {
    assert c in "0123456789abcdef" <==>
             || c == '0' || c == '1' || c == '2' || c == '3' || c == '4' || c == '5' || c == '6' || c == '7'
             || c == '8' || c == '9' || c == 'a' || c == 'b' || c == 'c' || c == 'd' || c == 'e' || c == 'f';
  }

  lemma HexSlice(s: string, lo: nat, hi: nat)
    requires lo <= hi <= |s|
    ensures IsHex(s[lo..hi]) <==> forall i | lo <= i < hi :: HexDigit(s[i])
  {
    forall i | lo <= i < hi
      ensures HexDigit(s[i]) <==> s[lo..hi][i - lo] in "0123456789abcdef"
    {
      HexDigits(s[i]);
    }
  }

  /** A canonical UUID is five groups of hexadecimal digits joined by dashes. */
  lemma UuidShape(s: string)
    ensures IsUuid(s) <==>
            && |s| == 36 && s[8] == s[13] == s[18] == s[23] == '-'
            && IsHex(s[..8]) && IsHex(s[9..13]) && IsHex(s[14..18]) && IsHex(s[19..23]) && IsHex(s[24..])
  {
    if |s| == 36 {
      assert s[..8] == s[0..8] && s[24..] == s[24..36];
      HexSlice(s, 0, 8);
      HexSlice(s, 9, 13);
      HexSlice(s, 14, 18);
      HexSlice(s, 19, 23);
      HexSlice(s, 24, 36);
    }
  }

  /** Python's falsy values. */
  lemma FalsyValues(j: Json)
    ensures !Truthy(j) <==>
            j == Null || j == Bool(false) || j == Int(0) || j == Real(0.0) || j == Str("") || j == List([]) || j == Obj([])
  {
  }

  /** What the restart reads in place of a missing or falsy entry, and as it is otherwise. */
  lemma DefaultsRead(j: Json, text: string, seconds: real)
    ensures j.Str? ==> TextOr(j, text) == if Truthy(j) then j.s else text
    ensures j == Null ==> TextOr(j, text) == text && SecondsOr(j, seconds) == seconds
    ensures j.Real? ==> SecondsOr(j, seconds) == if Truthy(j) then j.r else seconds
    ensures j.Int? ==> SecondsOr(j, seconds) == if Truthy(j) then j.i as real else seconds
  {
  }

  /** The values inside `j` that are neither lists nor objects. */
  function Atoms(j: Json): set<Json>
    decreases j, 1, 0
  {
    match j
    case List(items) => AtomsUpto(j, |items|)
    case Obj(fields) => AtomsUpto(j, |fields|)
    case _ => {j}
  }

  /** Those of its first `n` parts. */
  function AtomsUpto(j: Json, n: nat): set<Json>
    requires (j.List? && n <= |j.items|) || (j.Obj? && n <= |j.fields|)
    decreases j, 0, n
  {
    if n == 0 then {}
    else AtomsUpto(j, n - 1) + if j.List? then Atoms(j.items[n - 1]) else Atoms(j.fields[n - 1].1)
  }

  /** JSON can hold a value exactly when nothing inside it, at any depth, is refused. */
  lemma {:induction false} JsonSafeIff(j: Json)
    ensures JsonSafe(j) <==> Unserialisable !in Atoms(j)
    decreases j, 1, 0
  {
    if j.List? {
      PartsSafeIff(j, |j.items|);
    } else if j.Obj? {
      PartsSafeIff(j, |j.fields|);
    }
  }

  lemma {:induction false} PartsSafeIff(j: Json, n: nat)
    requires (j.List? && n <= |j.items|) || (j.Obj? && n <= |j.fields|)
    ensures (forall i | 0 <= i < n :: if j.List? then JsonSafe(j.items[i]) else JsonSafe(j.fields[i].1))
            <==> Unserialisable !in AtomsUpto(j, n)
    decreases j, 0, n
  {
    if n > 0 {
      PartsSafeIff(j, n - 1);
      JsonSafeIff(if j.List? then j.items[n - 1] else j.fields[n - 1].1);
    }
  }
}

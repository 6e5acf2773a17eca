/**
 * getUniqueName.ts: strip a trailing `" <digits>"` index from a node's name,
 * then search `base`, `base 2`, `base 3`, ... for the first name no entity
 * holds.
 *
 * The name registry (NameComponent.entitiesByName) is a parameter: a map from
 * a name to the entities holding it. A name is in use when its list is
 * present and non-empty.
 */
module GetUniqueName {
  import opened Wrappers

  type Entity = nat

  // ---------------------------------------------------------------------------
  // Decimal numerals

  predicate IsDigit(c: char)
  {
    '0' <= c <= '9'
  }

  predicate AllDigits(s: string)
  {
    forall i :: 0 <= i < |s| ==> IsDigit(s[i])
  }

  function DigitChar(d: nat): (c: char)
    requires d < 10
    ensures IsDigit(c) && c as int - '0' as int == d
  {
    (d + '0' as int) as char
  }

  /** `String(n)` for a non-negative integer: its decimal numeral. */
  function NatToString(n: nat): (s: string)
    ensures |s| > 0 && AllDigits(s)
    decreases n
  {
    if n < 10 then [DigitChar(n)] else NatToString(n / 10) + [DigitChar(n % 10)]
  }

  /** The value of a decimal numeral. */
  function ParseDigits(s: string): nat
    requires AllDigits(s)
    decreases |s|
  {
    if s == [] then 0 else 10 * ParseDigits(s[..|s| - 1]) + (s[|s| - 1] as int - '0' as int)
  }

  lemma {:induction false} ParseNatToString(n: nat)
    ensures ParseDigits(NatToString(n)) == n
    decreases n
  {
    var s := NatToString(n);
    if n >= 10 {
      ParseNatToString(n / 10);
      assert s[..|s| - 1] == NatToString(n / 10);
    }
  }

  /** Distinct numbers have distinct numerals. */
  lemma NatToStringInjective(a: nat, b: nat)
    requires NatToString(a) == NatToString(b)
    ensures a == b
  {
    ParseNatToString(a);
    ParseNatToString(b);
  }

  // ---------------------------------------------------------------------------
  // getNameWithoutIndex: the regular expression `(.*) \d+$`

  /** The characters ECMAScript's `.` does not match. */
  predicate IsLineTerminator(c: char)
  {
    c == '\n' || c == '\r' || c == '\U{2028}' || c == '\U{2029}'
  }

  predicate NoLineTerminators(s: string)
  {
    forall i :: 0 <= i < |s| ==> !IsLineTerminator(s[i])
  }

  /** The last position of `c` in `s`. */
  function LastIndex(s: string, c: char): (r: Option<nat>)
    ensures r.Some? ==> r.value < |s| && s[r.value] == c && forall i :: r.value < i < |s| ==> s[i] != c
    ensures r.None? ==> forall i :: 0 <= i < |s| ==> s[i] != c
    decreases |s|
  {
    if s == [] then None
    else if s[|s| - 1] == c then Some(|s| - 1)
    else LastIndex(s[..|s| - 1], c)
  }

  /** The start of the line holding position `q`: just after the last line
      terminator before `q`, or 0. The leftmost match of `(.*)` ending at `q`
      starts here. */
  function LineStart(s: string, q: nat): (p: nat)
    requires q <= |s|
    ensures p <= q && (p == 0 || IsLineTerminator(s[p - 1]))
    ensures forall i :: p <= i < q ==> !IsLineTerminator(s[i])
    decreases q
  {
    if q == 0 then 0
    else if IsLineTerminator(s[q - 1]) then q
    else LineStart(s, q - 1)
  }

  /** `name` ends in a space followed by one or more digits. */
  predicate EndsWithIndex(name: string)
  {
    exists q :: 0 <= q < |name| - 1 && name[q] == ' ' && AllDigits(name[q + 1..])
  }

  /** getNameWithoutIndex: with a match, the capture group, which runs from
      the start of the last line to the space before the final digit run;
      otherwise the name itself. */
  function NameWithoutIndex(name: string): (r: string)
    ensures r == name <==> !EndsWithIndex(name)
    ensures r != name ==> |r| < |name| && NoLineTerminators(r)
  {
    match LastIndex(name, ' ')
    case None =>
      assert !EndsWithIndex(name);
      name
    case Some(q) =>
      if q + 1 < |name| && AllDigits(name[q + 1..]) then
        name[LineStart(name, q)..q]
      else
        assert !EndsWithIndex(name) by {
          forall q' | 0 <= q' < |name| - 1 && name[q'] == ' '
            ensures !AllDigits(name[q' + 1..])
          {
            if q' < q {
              assert name[q' + 1..][q - q' - 1] == name[q];
            }
          }
        }
        name
  }

  /** Exactly one index is stripped, greedily: a one-line base followed by a
      space and digits gives back the base (`"A 1 2"` gives `"A 1"`). */
  lemma StripIndex(base: string, digits: string)
    requires NoLineTerminators(base) && |digits| > 0 && AllDigits(digits)
    ensures NameWithoutIndex(base + " " + digits) == base
  {
    var name := base + " " + digits;
    var q := |base|;
    assert name[q] == ' ';
    assert name[q + 1..] == digits;
    assert forall i :: q < i < |name| ==> name[i] != ' ' by {
      forall i | q < i < |name| ensures name[i] != ' ' {
        assert name[i] == digits[i - q - 1];
      }
    }
    assert LastIndex(name, ' ') == Some(q);
    assert forall i :: 0 <= i < q ==> name[i] == base[i];
    assert LineStart(name, q) == 0;
    assert name[0..q] == base;
  }

  /** A name spanning several lines loses every line but the last when it
      ends in an index. */
  lemma MultiLineNameKeepsLastLine()
    ensures NameWithoutIndex("Door\nLeft 3") == "Left"
  {
    var name := "Door\nLeft 3";
    assert LastIndex(name, ' ') == Some(9);
    assert name[10..] == "3";
    assert LineStart(name, 9) == 5;
    assert name[5..9] == "Left";
  }

  // ---------------------------------------------------------------------------
  // getUniqueName

  predicate Used(entitiesByName: map<string, seq<Entity>>, name: string)
  {
    name in entitiesByName && |entitiesByName[name]| > 0
  }

  function UsedNames(entitiesByName: map<string, seq<Entity>>): set<string>
  {
    set name | name in entitiesByName && |entitiesByName[name]| > 0
  }

  /** The name tried at `counter`: the base, then `base 2`, `base 3`, ... */
  function Candidate(base: string, counter: nat): string
  {
    base + (if counter > 0 then " " + NatToString(counter + 1) else "")
  }

  /** Every counter yields a different name. */
  lemma CandidateInjective(base: string, i: nat, j: nat)
    requires i != j
    ensures Candidate(base, i) != Candidate(base, j)
  {
    if i > 0 && j > 0 {
      var ci := Candidate(base, i);
      var cj := Candidate(base, j);
      assert ci[|base| + 1..] == NatToString(i + 1);
      assert cj[|base| + 1..] == NatToString(j + 1);
      ParseNatToString(i + 1);
      ParseNatToString(j + 1);
      assert ci[|base| + 1..] != cj[|base| + 1..];
    }
  }

  /** No candidate carries the index 1. */
  lemma NeverIndexOne(base: string, counter: nat)
    ensures Candidate(base, counter) != base + " 1"
  {
    if counter > 0 {
      var c := Candidate(base, counter);
      var one := base + " 1";
      assert c[|base| + 1..] == NatToString(counter + 1);
      assert one[|base| + 1..] == "1";
      ParseNatToString(counter + 1);
      assert ParseDigits("1") == 1;
      assert c[|base| + 1..] != one[|base| + 1..];
    }
  }

  /** Names made by this search strip back to their base, so unique names of
      unique names grow no second index. */
  lemma CandidateStripsToBase(base: string, counter: nat)
    requires NoLineTerminators(base) && !EndsWithIndex(base)
    ensures NameWithoutIndex(Candidate(base, counter)) == base
  {
    if counter > 0 {
      StripIndex(base, NatToString(counter + 1));
      assert Candidate(base, counter) == base + " " + NatToString(counter + 1);
    } else {
      assert Candidate(base, counter) == base;
    }
  }

  /** getUniqueName: the node's name (or the template name when it has none),
      stripped of its index, then the first candidate not in use. Only reads
      the registry. */
  method GetUniqueName(nodeName: Option<string>, entitiesByName: map<string, seq<Entity>>, templateName: string)
    returns (r: string)
    ensures !Used(entitiesByName, r)
    ensures var base := NameWithoutIndex(if nodeName.Some? then nodeName.value else templateName);
      exists counter: nat :: r == Candidate(base, counter)
        && forall j :: 0 <= j < counter ==> Used(entitiesByName, Candidate(base, j))
  {
    var name := if nodeName.Some? then nodeName.value else templateName;
    var nameWithoutIndex := NameWithoutIndex(name);
    var empty := false;
    var counter: nat := 0;
    ghost var tried: set<string> := {};
    while !empty
      invariant tried == set j | 0 <= j < counter :: Candidate(nameWithoutIndex, j)
      invariant tried <= UsedNames(entitiesByName)
      invariant |tried| == counter
      invariant forall j :: 0 <= j < counter ==> Used(entitiesByName, Candidate(nameWithoutIndex, j))
      invariant empty ==> !Used(entitiesByName, Candidate(nameWithoutIndex, counter))
      decreases |UsedNames(entitiesByName)| - counter, if empty then 0 else 1
    {
      var candidate := nameWithoutIndex + (if counter > 0 then " " + NatToString(counter + 1) else "");
      assert candidate == Candidate(nameWithoutIndex, counter);
      if !(candidate in entitiesByName && |entitiesByName[candidate]| > 0) {
        empty := true;
        break;
      }
      assert candidate !in tried by {
        forall j | 0 <= j < counter ensures Candidate(nameWithoutIndex, j) != candidate {
          CandidateInjective(nameWithoutIndex, j, counter);
        }
      }
      assert candidate in UsedNames(entitiesByName);
      tried := tried + {candidate};
      assert tried == set j | 0 <= j < counter + 1 :: Candidate(nameWithoutIndex, j);
      assert |tried| <= |UsedNames(entitiesByName)| by {
        SubsetSize(tried, UsedNames(entitiesByName));
      }
      counter := counter + 1;
    }
    r := nameWithoutIndex + (if counter > 0 then " " + NatToString(counter + 1) else "");
    assert r == Candidate(nameWithoutIndex, counter);
  }

  /** The template name getUniqueName falls back to when none is passed. */
  const DefaultTemplateName := "New Object"

  /** The default template name carries no index, so it is its own base. */
  lemma DefaultTemplateNameHasNoIndex()
    ensures NameWithoutIndex(DefaultTemplateName) == DefaultTemplateName
  {
    var name := DefaultTemplateName;
    assert name[3] == ' ';
    assert forall i :: 0 <= i < |name| && i != 3 ==> name[i] != ' ';
    assert LastIndex(name, ' ') == Some(3);
    assert !IsDigit(name[4..][0]);
  }

  /** getUniqueName called without a template name: a node without a name
      becomes `New Object`, or `New Object 2`, `New Object 3`, ... */
  method GetUniqueNameWithDefault(nodeName: Option<string>, entitiesByName: map<string, seq<Entity>>)
    returns (r: string)
    ensures !Used(entitiesByName, r)
    ensures nodeName.None? ==>
      exists counter: nat :: r == Candidate(DefaultTemplateName, counter)
        && forall j :: 0 <= j < counter ==> Used(entitiesByName, Candidate(DefaultTemplateName, j))
    ensures nodeName.Some? ==>
      exists counter: nat :: r == Candidate(NameWithoutIndex(nodeName.value), counter)
        && forall j :: 0 <= j < counter ==> Used(entitiesByName, Candidate(NameWithoutIndex(nodeName.value), j))
  {
    DefaultTemplateNameHasNoIndex();
    r := GetUniqueName(nodeName, entitiesByName, DefaultTemplateName);
  }

  lemma SubsetSize<T>(a: set<T>, b: set<T>)
    requires a <= b
    ensures |a| <= |b|
  {
    assert b == a + (b - a);
  }
}

/**
  The PHP values the pass handles: the results of evaluating a call's arguments,
  the invoker's options and the formula.  A PHP array is an ORDERED map, so it is
  modelled as a sequence of key/value entries whose keys are distinct.
*/
module Php {
  import opened Wrappers

  datatype Key = IntKey(n: int) | StrKey(s: string)

  datatype Value =
    | Null
    | Bool(b: bool)
    | Int(n: int)
    | Str(s: string)
    | Array(entries: seq<Entry>)

  datatype Entry = Entry(key: Key, value: Value)

  /** The keys of an array, in order. */
  function Keys(a: seq<Entry>): (ks: seq<Key>)
    ensures |ks| == |a|
    ensures forall i :: 0 <= i < |a| ==> ks[i] == a[i].key
  {
    if a == [] then [] else [a[0].key] + Keys(a[1..])
  }

  /** A PHP array never holds the same key twice. */
  predicate WellFormed(a: seq<Entry>)
  {
    forall i, j :: 0 <= i < j < |a| ==> a[i].key != a[j].key
  }

  predicate HasKey(a: seq<Entry>, k: Key)
  {
    k in Keys(a)
  }

  /** `$a[k]`, or None when the key is absent. */
  function Get(a: seq<Entry>, k: Key): Option<Value>
  {
    if a == [] then None
    else if a[0].key == k then Some(a[0].value)
    else Get(a[1..], k)
  }

  /** PHP's `isset($a[k])`: the key is present and its value is not null. */
  predicate IsSet(a: seq<Entry>, k: Key)
  {
    Get(a, k).Some? && Get(a, k).value != Null
  }

  /** `$a[k] = v`: an existing key keeps its position, a new one goes last. */
  function Put(a: seq<Entry>, k: Key, v: Value): seq<Entry>
  {
    if a == [] then [Entry(k, v)]
    else if a[0].key == k then [Entry(k, v)] + a[1..]
    else [a[0]] + Put(a[1..], k, v)
  }

  /** `array_replace($base, $over)`: every entry of `over`, in order, written into `base`. */
  function Replace(base: seq<Entry>, over: seq<Entry>): seq<Entry>
    decreases |over|
  {
    if over == [] then base
    else Replace(Put(base, over[0].key, over[0].value), over[1..])
  }

  /** The cast `(array) $v`: an array stays as it is, null becomes the empty
      array and any other value becomes the one-element list `[0 => $v]`. */
  function CastToArray(v: Value): seq<Entry>
  {
    match v
    case Array(es) => es
    case Null => []
    case _ => [Entry(IntKey(0), v)]
  }

  /** PHP's `isset($list[i])` on a list of values. */
  predicate IsSetAt(values: seq<Value>, i: nat)
  {
    i < |values| && values[i] != Null
  }

  /** A PHP string's truthiness: the empty string and "0" are false. */
  predicate TruthyString(s: string)
  {
    s != "" && s != "0"
  }

  function DigitChar(d: nat): char
    requires d < 10
  {
    "0123456789"[d]
  }

  function NatToDecimal(n: nat): (s: string)
    ensures |s| >= 1
  {
    if n < 10 then [DigitChar(n)] else NatToDecimal(n / 10) + [DigitChar(n % 10)]
  }

  /** The string a value becomes under the `.` operator (arrays become "Array"). */
  function ToPhpString(v: Value): string
  {
    match v
    case Null => ""
    case Bool(b) => if b then "1" else ""
    case Int(n) => if n < 0 then "-" + NatToDecimal(-n) else NatToDecimal(n)
    case Str(s) => s
    case Array(_) => "Array"
  }

  // ---------------------------------------------------------------------------
  // Lemmas about key lookup, `$a[k] = v` and `array_replace`

  lemma {:induction false} HasKeyGet(a: seq<Entry>, k: Key)
    ensures HasKey(a, k) <==> Get(a, k).Some?
  {
    if a != [] {
      assert Keys(a) == [a[0].key] + Keys(a[1..]);
      HasKeyGet(a[1..], k);
    }
  }

  /** After `$a[k] = v`, key k holds v and every other key reads as before. */
  lemma {:induction false} PutGet(a: seq<Entry>, k: Key, v: Value, k': Key)
    ensures Get(Put(a, k, v), k') == if k' == k then Some(v) else Get(a, k')
  {
    if a != [] && a[0].key != k {
      PutGet(a[1..], k, v, k');
    }
  }

  /** `$a[k] = v` keeps the order of the existing keys and appends a new key last. */
  lemma {:induction false} PutKeys(a: seq<Entry>, k: Key, v: Value)
    ensures Keys(Put(a, k, v)) == if k in Keys(a) then Keys(a) else Keys(a) + [k]
  {
    if a == [] {
    } else if a[0].key == k {
      assert Keys(a) == [a[0].key] + Keys(a[1..]);
      assert Keys(Put(a, k, v)) == [k] + Keys(a[1..]);
    } else {
      PutKeys(a[1..], k, v);
      assert Keys(a) == [a[0].key] + Keys(a[1..]);
      assert Keys(Put(a, k, v)) == [a[0].key] + Keys(Put(a[1..], k, v));
    }
  }

  lemma PutWellFormed(a: seq<Entry>, k: Key, v: Value)
    requires WellFormed(a)
    ensures WellFormed(Put(a, k, v))
  {
    var r := Put(a, k, v);
    PutKeys(a, k, v);
    assert Keys(r) == if k in Keys(a) then Keys(a) else Keys(a) + [k];
    forall i, j | 0 <= i < j < |r| ensures r[i].key != r[j].key {
      assert Keys(r)[i] == r[i].key && Keys(r)[j] == r[j].key;
      if k !in Keys(a) && j == |a| {
        assert Keys(a)[i] == a[i].key;
      } else {
        assert Keys(a)[i] == a[i].key && Keys(a)[j] == a[j].key;
      }
    }
  }

  lemma ReplaceWellFormed(base: seq<Entry>, over: seq<Entry>)
    requires WellFormed(base)
    ensures WellFormed(Replace(base, over))
    decreases |over|
  {
    if over != [] {
      PutWellFormed(base, over[0].key, over[0].value);
      ReplaceWellFormed(Put(base, over[0].key, over[0].value), over[1..]);
    }
  }

  /** `array_replace` lets every key of `over` win and keeps every other key of `base`. */
  lemma {:induction false} ReplaceGet(base: seq<Entry>, over: seq<Entry>, k: Key)
    requires WellFormed(over)
    ensures Get(Replace(base, over), k) == if HasKey(over, k) then Get(over, k) else Get(base, k)
    decreases |over|
  {
    if over != [] {
      var k0, v0 := over[0].key, over[0].value;
      var rest := over[1..];
      assert WellFormed(rest);
      assert Keys(over) == [k0] + Keys(rest);
      ReplaceGet(Put(base, k0, v0), rest, k);
      PutGet(base, k0, v0, k);
      HasKeyGet(rest, k);
      if k == k0 {
        assert !HasKey(rest, k) by {
          forall j | 0 <= j < |rest| ensures Keys(rest)[j] != k {
            assert over[j + 1].key == rest[j].key;
          }
        }
      }
    }
  }

  /** `array_replace` keeps the keys of `base` first, in their order, and the
      result holds exactly the keys of both arrays. */
  lemma {:induction false} ReplaceKeys(base: seq<Entry>, over: seq<Entry>)
    ensures Keys(base) <= Keys(Replace(base, over))
    ensures forall k :: k in Keys(Replace(base, over)) <==> k in Keys(base) || k in Keys(over)
    decreases |over|
  {
    if over != [] {
      var k0, v0 := over[0].key, over[0].value;
      var put := Put(base, k0, v0);
      PutKeys(base, k0, v0);
      ReplaceKeys(put, over[1..]);
      assert Keys(over) == [k0] + Keys(over[1..]);
    }
  }

  /** Replacing in two steps reads the same as replacing with the merged overrides:
      later overrides win key by key, whatever order the merge is done in. */
  lemma ReplaceAssociative(a: seq<Entry>, b: seq<Entry>, c: seq<Entry>, k: Key)
    requires WellFormed(b) && WellFormed(c)
    ensures Get(Replace(Replace(a, b), c), k) == Get(Replace(a, Replace(b, c)), k)
  {
    ReplaceWellFormed(b, c);
    ReplaceGet(Replace(a, b), c, k);
    ReplaceGet(a, b, k);
    ReplaceGet(a, Replace(b, c), k);
    ReplaceGet(b, c, k);
    HasKeyGet(Replace(b, c), k);
    HasKeyGet(b, k);
    HasKeyGet(c, k);
  }
}

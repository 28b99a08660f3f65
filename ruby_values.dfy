/**
 * The few Ruby values and library behaviours the controllers depend on:
 * request parameters (a missing one reads as `nil`), string interpolation,
 * `Option` for lookups that may find nothing, and a Hash literal with its
 * `key?` and `[]` operations.
 */
module RubyValues {

  datatype Option<+T> = None | Some(value: T)

  /** A Ruby value as it reaches `render` or a log line. */
  datatype Value = Nil | Str(s: string) | Sym(name: string)

  /** The request's parameters, by name. */
  type Params = map<string, string>

  /** `params[:name]`: the parameter's string, or `nil` when the request has none. */
  function Param(params: Params, name: string): Value
  {
    if name in params then Str(params[name]) else Nil
  }

  /** `"#{v}"`: the value's `to_s`; `nil` interpolates as the empty string. */
  function Interpolate(v: Value): string
  {
    match v
    case Nil => ""
    case Str(t) => t
    case Sym(n) => n
  }

  /** The keys written in a Hash literal's associations. */
  ghost function LiteralKeys<K, V>(entries: seq<(K, V)>): set<K>
  {
    set e | e in entries :: e.0
  }

  /** True when no association after position `i` repeats the key of association `i`. */
  ghost predicate LastOccurrence<K, V>(entries: seq<(K, V)>, i: int)
    requires 0 <= i < |entries|
  {
    forall j :: i < j < |entries| ==> entries[j].0 != entries[i].0
  }

  /**
   * The Hash a literal `{ k1 => v1, ..., kn => vn }` evaluates to: the
   * associations are stored left to right, so a repeated key keeps the last
   * value written for it.
   */
  function HashLiteral<K(==), V>(entries: seq<(K, V)>): map<K, V>
  {
    if |entries| == 0 then map[]
    else
      var last := entries[|entries| - 1];
      HashLiteral(entries[..|entries| - 1])[last.0 := last.1]
  }

  /** A literal's Hash has exactly the keys the literal writes. */
  lemma {:induction false} HashLiteralKeys<K, V>(entries: seq<(K, V)>)
    ensures HashLiteral(entries).Keys == LiteralKeys(entries)
  {
    if |entries| > 0 {
      var n := |entries| - 1;
      var earlier, last := entries[..n], entries[n];
      HashLiteralKeys(earlier);
      assert entries == earlier + [last];
      assert LiteralKeys(entries) == LiteralKeys(earlier) + {last.0};
    }
  }

  /** Every value a literal's Hash holds is written next to its key in the literal. */
  lemma {:induction false} HashLiteralValueWritten<K, V>(entries: seq<(K, V)>, k: K)
    requires k in HashLiteral(entries)
    ensures (k, HashLiteral(entries)[k]) in entries
  {
    var n := |entries| - 1;
    var earlier, last := entries[..n], entries[n];
    assert entries == earlier + [last];
    if k != last.0 {
      HashLiteralValueWritten(earlier, k);
    }
  }

  /** For a key the literal does not repeat later, the Hash holds the value written with it. */
  lemma {:induction false} HashLiteralLastWins<K, V>(entries: seq<(K, V)>, i: int)
    requires 0 <= i < |entries| && LastOccurrence(entries, i)
    ensures entries[i].0 in HashLiteral(entries) && HashLiteral(entries)[entries[i].0] == entries[i].1
  {
    var n := |entries| - 1;
    if i < n {
      var earlier := entries[..n];
      assert earlier[i] == entries[i];
      assert LastOccurrence(earlier, i) by {
        forall j | i < j < |earlier| ensures earlier[j].0 != earlier[i].0 {
          assert earlier[j] == entries[j];
        }
      }
      HashLiteralLastWins(earlier, i);
    }
  }

  /** `h.key?(k)` on a Hash with String keys: only a String equal to a key matches. */
  predicate HasKey(h: map<string, string>, k: Value)
  {
    k.Str? && k.s in h
  }

  /** `h[k]` on a Hash with String keys and values: `nil` for a missing key. */
  function Fetch(h: map<string, string>, k: Value): Value
  {
    if k.Str? && k.s in h then Str(h[k.s]) else Nil
  }
}

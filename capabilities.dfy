/**
 * `parse_capabilities`: the machine's capability table from a string such as
 * "job_A:5,job_B:3". Items are separated by commas; an item with exactly one
 * colon maps its stripped key to its numeric value, an item without a colon
 * is skipped, a later key overrides an earlier one, and an item with more
 * than one colon or a non-numeric value raises ValueError.
 */
module Capabilities {
  import opened Base
  import opened Text

  /** The ValueError `parse_capabilities` raises, and on which text. */
  datatype ParseError =
    | TooManyColons(item: string)   // `job_type, time_str = item.split(':')` fails to unpack
    | NotANumber(text: string)      // `float(time_str.strip())` fails

  /** What one comma-separated item contributes. */
  datatype Item = Skip | Entry(jobType: string, duration: real) | Invalid(error: ParseError)

  /** The body of the loop of `parse_capabilities` for one item. */
  function ParseItem(raw: string): (it: Item)
    ensures it.Skip? <==> Count(Strip(raw), ':') == 0
    ensures it.Invalid? && it.error.TooManyColons? <==> Count(Strip(raw), ':') >= 2
    ensures it.Entry? ==> NoEdgeSpace(it.jobType)
  {
    var item := Strip(raw);
    SplitCount(item, ':');
    if ':' !in item then Skip
    else
      var parts := Split(item, ':');
      if |parts| != 2 then Invalid(TooManyColons(item))
      else
        var text := Strip(parts[1]);
        match ParseDecimal(text)
        case None => Invalid(NotANumber(text))
        case Some(v) => Entry(Strip(parts[0]), v)
  }

  /**
   * An item with exactly one colon maps its stripped key to the value of its
   * stripped text after the colon, or fails when that text is not a number.
   */
  lemma ParseItemOneColon(raw: string, key: string, value: string)
    requires Strip(raw) == key + [':'] + value && ':' !in key && ':' !in value
    ensures ParseItem(raw) == match ParseDecimal(Strip(value))
                              case None => Invalid(NotANumber(Strip(value)))
                              case Some(v) => Entry(Strip(key), v)
  {
    var item := Strip(raw);
    assert item[|key|] == ':';
    assert Join([key, value], ':') == item;
    SplitJoin([key, value], ':');
  }

  /** Every item of the split string, parsed. */
  function ParseItems(items: seq<string>): (its: seq<Item>)
    ensures |its| == |items|
    ensures forall k :: 0 <= k < |items| ==> its[k] == ParseItem(items[k])
  {
    if items == [] then [] else [ParseItem(items[0])] + ParseItems(items[1..])
  }

  /** The dictionary the loop builds from `its` starting from `acc`, or the error it raises. */
  function Collect(its: seq<Item>, acc: map<string, real>): (r: Result<map<string, real>, ParseError>)
    ensures r.Ok? ==> acc.Keys <= r.value.Keys
    ensures r.Err? ==> Invalid(r.error) in its
  {
    if its == [] then Ok(acc)
    else match its[0]
      case Skip => Collect(its[1..], acc)
      case Entry(k, v) => Collect(its[1..], acc[k := v])
      case Invalid(e) => Err(e)
  }

  /** One step of the fold. */
  lemma CollectStep(its: seq<Item>, i: nat, acc: map<string, real>)
    requires i < |its|
    ensures Collect(its[i..], acc) == match its[i]
                                      case Skip => Collect(its[i + 1..], acc)
                                      case Entry(k, v) => Collect(its[i + 1..], acc[k := v])
                                      case Invalid(e) => Err(e)
  {
    assert its[i..][0] == its[i] && its[i..][1..] == its[i + 1..];
  }

  /** `parse_capabilities(cap_str)`, item by item over `cap_str.split(',')`. */
  method ParseCapabilities(capStr: string) returns (r: Result<map<string, real>, ParseError>)
    ensures r == Collect(ParseItems(Split(capStr, ',')), map[])
  {
    var items := Split(capStr, ',');
    ghost var its := ParseItems(items);
    var capabilities: map<string, real> := map[];
    var i := 0;
    while i < |items|
      invariant 0 <= i <= |items|
      invariant Collect(its, map[]) == Collect(its[i..], capabilities)
    {
      var it := ParseItem(items[i]);
      CollectStep(its, i, capabilities);
      if it.Invalid? {
        return Err(it.error);
      }
      if it.Entry? {
        capabilities := capabilities[it.jobType := it.duration];
      }
      i := i + 1;
    }
    assert its[i..] == [];
    return Ok(capabilities);
  }

  /** Parsing two lists one after the other is parsing their concatenation. */
  lemma {:induction false} CollectAppend(a: seq<Item>, b: seq<Item>, acc: map<string, real>)
    ensures Collect(a + b, acc) == match Collect(a, acc)
                                   case Ok(m) => Collect(b, m)
                                   case Err(e) => Err(e)
  {
    if a != [] {
      assert (a + b)[0] == a[0] && (a + b)[1..] == a[1..] + b;
      match a[0]
      case Skip => CollectAppend(a[1..], b, acc);
      case Entry(k, v) => CollectAppend(a[1..], b, acc[k := v]);
      case Invalid(e) =>
    } else {
      assert a + b == b;
    }
  }

  /** Parsing is item by item. */
  lemma {:induction false} ParseItemsAppend(a: seq<string>, b: seq<string>)
    ensures ParseItems(a + b) == ParseItems(a) + ParseItems(b)
  {
    if a != [] {
      assert (a + b)[1..] == a[1..] + b;
      ParseItemsAppend(a[1..], b);
    } else {
      assert a + b == b;
    }
  }

  /** An item without a colon can be removed without changing the result. */
  lemma SkippedItemIrrelevant(a: seq<string>, x: string, b: seq<string>)
    requires ':' !in Strip(x)
    ensures Collect(ParseItems(a + [x] + b), map[]) == Collect(ParseItems(a + b), map[])
  {
    var pa, pb := ParseItems(a), ParseItems(b);
    ParseItemsAppend(a, [x] + b);
    ParseItemsAppend([x], b);
    ParseItemsAppend(a, b);
    assert a + [x] + b == a + ([x] + b);
    assert ParseItems([x]) == [Skip];
    CollectAppend(pa, [Skip] + pb, map[]);
    CollectAppend(pa, pb, map[]);
    assert ([Skip] + pb)[1..] == pb;
  }

  /** Index of the first invalid item, if any. */
  predicate FirstInvalidAt(its: seq<Item>, k: int) {
    0 <= k < |its| && its[k].Invalid? && forall j :: 0 <= j < k ==> !its[j].Invalid?
  }

  /**
   * The parse fails iff some item is invalid, and then with the error of the
   * first invalid item; nothing after it is looked at.
   */
  lemma {:induction false} CollectFails(its: seq<Item>, acc: map<string, real>)
    ensures Collect(its, acc).Err? <==> exists k :: 0 <= k < |its| && its[k].Invalid?
    ensures Collect(its, acc).Err? ==>
      exists k :: FirstInvalidAt(its, k) && its[k].error == Collect(its, acc).error
  {
    if its != [] {
      if its[0].Invalid? {
        assert FirstInvalidAt(its, 0);
      } else {
        var acc' := if its[0].Entry? then acc[its[0].jobType := its[0].duration] else acc;
        assert Collect(its, acc) == Collect(its[1..], acc');
        CollectFails(its[1..], acc');
        if Collect(its, acc).Err? {
          var k :| FirstInvalidAt(its[1..], k) && its[1..][k].error == Collect(its, acc).error;
          assert FirstInvalidAt(its, k + 1);
        }
        if exists k :: 0 <= k < |its| && its[k].Invalid? {
          var k :| 0 <= k < |its| && its[k].Invalid?;
          assert its[1..][k - 1].Invalid?;
        }
      }
    }
  }

  /** Items with no entry for `key` leave its value alone. */
  lemma {:induction false} KeyUntouched(its: seq<Item>, acc: map<string, real>, key: string)
    requires key in acc
    requires forall j :: 0 <= j < |its| ==> !(its[j].Entry? && its[j].jobType == key)
    requires Collect(its, acc).Ok?
    ensures key in Collect(its, acc).value && Collect(its, acc).value[key] == acc[key]
  {
    if its != [] {
      match its[0]
      case Skip => KeyUntouched(its[1..], acc, key);
      case Entry(k, v) => KeyUntouched(its[1..], acc[k := v], key);
    }
  }

  /** An entry's key is in the result, with the value of the last entry for that key. */
  lemma LastEntryWins(its: seq<Item>, acc: map<string, real>, k: nat)
    requires k < |its| && its[k].Entry?
    requires forall j :: k < j < |its| ==> !(its[j].Entry? && its[j].jobType == its[k].jobType)
    requires Collect(its, acc).Ok?
    ensures its[k].jobType in Collect(its, acc).value
    ensures Collect(its, acc).value[its[k].jobType] == its[k].duration
  {
    var key, v := its[k].jobType, its[k].duration;
    assert its == its[..k] + ([its[k]] + its[k + 1..]);
    CollectAppend(its[..k], [its[k]] + its[k + 1..], acc);
    var m := Collect(its[..k], acc).value;
    assert ([its[k]] + its[k + 1..])[1..] == its[k + 1..];
    KeyUntouched(its[k + 1..], m[key := v], key);
  }

  /** Whether some item is an entry for `key`. */
  predicate HasEntry(its: seq<Item>, key: string) {
    exists j :: 0 <= j < |its| && its[j].Entry? && its[j].jobType == key
  }

  /**
   * A successful parse holds exactly the keys of the starting table and the
   * keys of the entries: no item adds any other key.
   */
  lemma {:induction false} CollectDomain(its: seq<Item>, acc: map<string, real>, key: string)
    requires Collect(its, acc).Ok?
    ensures key in Collect(its, acc).value <==> key in acc || HasEntry(its, key)
  {
    if its != [] {
      match its[0]
      case Skip =>
        CollectDomain(its[1..], acc, key);
        if HasEntry(its, key) {
          var j :| 0 <= j < |its| && its[j].Entry? && its[j].jobType == key;
          assert its[1..][j - 1] == its[j];
        }
        if HasEntry(its[1..], key) {
          var j :| 0 <= j < |its[1..]| && its[1..][j].Entry? && its[1..][j].jobType == key;
          assert its[j + 1] == its[1..][j];
        }
      case Entry(k, v) =>
        CollectDomain(its[1..], acc[k := v], key);
        if k == key {
          assert its[0].Entry? && its[0].jobType == key;
        } else {
          if HasEntry(its, key) {
            var j :| 0 <= j < |its| && its[j].Entry? && its[j].jobType == key;
            assert its[1..][j - 1] == its[j];
          }
          if HasEntry(its[1..], key) {
            var j :| 0 <= j < |its[1..]| && its[1..][j].Entry? && its[1..][j].jobType == key;
            assert its[j + 1] == its[1..][j];
          }
        }
    }
  }

  // ---------------------------------------------------------------------
  // Round trip: formatting a table and parsing it back.

  /** A job type that survives formatting: no separator and no edge whitespace. */
  predicate IsCleanKey(k: string) {
    ',' !in k && ':' !in k && NoEdgeSpace(k)
  }

  /** "key:duration" for one entry. */
  function FormatEntry(key: string, duration: nat): string {
    key + [':'] + FormatNat(duration)
  }

  /** The items of a formatted table, in order. */
  function FormatItems(entries: seq<(string, nat)>): (items: seq<string>)
    ensures |items| == |entries|
    ensures forall k :: 0 <= k < |entries| ==> items[k] == FormatEntry(entries[k].0, entries[k].1)
  {
    if entries == [] then [] else [FormatEntry(entries[0].0, entries[0].1)] + FormatItems(entries[1..])
  }

  /** The table a list of entries denotes, a later entry overriding an earlier one. */
  function Override(acc: map<string, real>, entries: seq<(string, nat)>): map<string, real>
    decreases entries
  {
    if entries == [] then acc else Override(acc[entries[0].0 := entries[0].1 as real], entries[1..])
  }

  lemma DigitsHaveNoSeparators(n: nat)
    ensures ':' !in FormatNat(n) && ',' !in FormatNat(n) && NoEdgeSpace(FormatNat(n))
  {
    var s := FormatNat(n);
    assert forall k :: 0 <= k < |s| ==> IsDigit(s[k]);
  }

  /** One formatted entry parses back to itself. */
  lemma ParseFormattedEntry(key: string, duration: nat)
    requires IsCleanKey(key)
    ensures ParseItem(FormatEntry(key, duration)) == Entry(key, duration as real)
  {
    var digits := FormatNat(duration);
    var item := FormatEntry(key, duration);
    DigitsHaveNoSeparators(duration);
    assert item[|item| - 1] == digits[|digits| - 1];
    assert key != [] ==> item[0] == key[0];
    assert key == [] ==> item[0] == ':';
    assert Strip(item) == item;
    assert ':' in item by { assert item[|key|] == ':'; }
    assert Join([key, digits], ':') == item;
    SplitJoin([key, digits], ':');
    ParseFormatted(duration);
  }

  lemma {:induction false} CollectFormatted(entries: seq<(string, nat)>, acc: map<string, real>)
    requires forall k :: 0 <= k < |entries| ==> IsCleanKey(entries[k].0)
    ensures Collect(ParseItems(FormatItems(entries)), acc) == Ok(Override(acc, entries))
    decreases entries
  {
    if entries != [] {
      ParseFormattedEntry(entries[0].0, entries[0].1);
      CollectFormatted(entries[1..], acc[entries[0].0 := entries[0].1 as real]);
      assert FormatItems(entries)[1..] == FormatItems(entries[1..]);
      assert ParseItems(FormatItems(entries))[1..] == ParseItems(FormatItems(entries[1..]));
    }
  }

  /**
   * Formatting a table as "k1:d1,k2:d2,..." and parsing it back yields the
   * table, a later entry for a key overriding an earlier one.
   */
  lemma {:induction false} ParseOfFormat(entries: seq<(string, nat)>)
    requires forall k :: 0 <= k < |entries| ==> IsCleanKey(entries[k].0)
    ensures Collect(ParseItems(Split(Join(FormatItems(entries), ','), ',')), map[])
            == Ok(Override(map[], entries))
  {
    var items := FormatItems(entries);
    CollectFormatted(entries, map[]);
    if entries == [] {
      assert Split(Join(items, ','), ',') == [[]];
      assert Strip([]) == [];
    } else {
      forall k | 0 <= k < |items| ensures ',' !in items[k] {
        DigitsHaveNoSeparators(entries[k].1);
      }
      SplitJoin(items, ',');
    }
  }
}

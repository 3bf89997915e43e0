/** The recursive sanitiser `BaseLoggingMixin._clean_data`: decodes bytes,
    cleans lists element by element, and copies dicts, re-parsing each value
    as a Python literal, recursing into parsed lists and dicts, and masking
    every value whose lower-cased key is sensitive. */
module Sanitizer {
  import opened Values

  /** The class default of `CLEANED_SUBSTITUTE`; a view may override it with
      any other string. */
  const DefaultSubstitute: string := "********************"

  /** The field names masked whatever the view configures. */
  const BuiltinSensitive: set<string> :=
    {"api", "token", "key", "secret", "password", "signature"}

  /** The foreign calls plus the view's `sensitive_fields` and its
      `CLEANED_SUBSTITUTE`, the text a sensitive value is replaced by. */
  datatype Cleaner = Cleaner(foreign: Foreign, sensitiveFields: set<string>, substitute: string)

  /** The built-in names together with the lower-cased configured ones. */
  function SensitiveSet(c: Cleaner): set<string>
  {
    BuiltinSensitive + set f | f in c.sensitiveFields :: c.foreign.lower(f)
  }

  predicate IsSensitive(c: Cleaner, key: string)
  {
    c.foreign.lower(key) in SensitiveSet(c)
  }

  /** The value after the `literal_eval` attempt: the parsed value when parsing
      succeeds, `v` itself when it raises (it always does on a non-string).
      A parse larger than its source text is refused as well; no parser
      satisfying `Foreign.Sound` produces one (`ReparseIsLiteralEval`), and
      the bound is what makes the cleaning recursion terminate. */
  function Reparse(c: Cleaner, v: Val): (r: Val)
    ensures Size(r) <= Size(v)
    ensures r == v || v.Str?
  {
    if v.Str? && c.foreign.literalEval(v.s).Some? && Size(c.foreign.literalEval(v.s).value) <= |v.s|
    then c.foreign.literalEval(v.s).value
    else v
  }

  /** For a sound parser the attempt is exactly `literal_eval`, falling back
      to the value itself when that raises. */
  lemma ReparseIsLiteralEval(c: Cleaner, v: Val)
    requires c.foreign.Sound()
    ensures v.Str? && c.foreign.literalEval(v.s).Some? ==> Reparse(c, v) == c.foreign.literalEval(v.s).value
    ensures !(v.Str? && c.foreign.literalEval(v.s).Some?) ==> Reparse(c, v) == v
  {
  }

  /** True when `literal_eval` turns the string `v` into a list or a dict. */
  predicate ParsesToCollection(c: Cleaner, v: Val)
  {
    v.Str? && (Reparse(c, v).List? || Reparse(c, v).Dict?)
  }

  /** `_clean_data(v)`. */
  function Clean(c: Cleaner, v: Val): (r: Val)
    ensures v.Bytes? ==> r == Str(c.foreign.decode(v.bs))
    ensures v.List? <==> r.List?
    ensures v.List? ==> |r.items| == |v.items|
    ensures v.Dict? <==> r.Dict?
    ensures v.Dict? ==> |r.entries| == |v.entries|
                         && forall i :: 0 <= i < |v.entries| ==> r.entries[i].key == v.entries[i].key
    ensures !v.Bytes? && !v.List? && !v.Dict? ==> r == v
    decreases Size(v), 0
  {
    match v
    case Bytes(bs) => Str(c.foreign.decode(bs))
    case List(items) => List(CleanList(c, items))
    case Dict(es) => Dict(CleanEntries(c, es))
    case _ => v
  }

  /** The list comprehension `[self._clean_data(d) for d in data]`. */
  function CleanList(c: Cleaner, items: seq<Val>): (r: seq<Val>)
    ensures |r| == |items|
    ensures forall i :: 0 <= i < |items| ==> r[i] == Clean(c, items[i])
    decreases SizeList(items), 1
  {
    if items == [] then [] else [Clean(c, items[0])] + CleanList(c, items[1..])
  }

  /** The loop over the copied dict: every key stays where it was and its
      value is replaced by `CleanValue` of it. */
  function CleanEntries(c: Cleaner, es: seq<Entry>): (r: seq<Entry>)
    ensures |r| == |es|
    ensures forall i :: 0 <= i < |es| ==> r[i].key == es[i].key
    ensures forall i :: 0 <= i < |es| ==> r[i].value == CleanValue(c, es[i].key, es[i].value)
    decreases SizeEntries(es), 2
  {
    if es == [] then []
    else [Entry(es[0].key, CleanValue(c, es[0].key, es[0].value))] + CleanEntries(c, es[1..])
  }

  /** What one dict value becomes under key `key`. */
  function CleanValue(c: Cleaner, key: string, v: Val): (r: Val)
    // a sensitive key is masked, whatever its value was
    ensures IsSensitive(c, key) ==> r == Str(c.substitute)
    // a string that parses to a list or dict is replaced by the cleaned parse
    ensures !IsSensitive(c, key) && ParsesToCollection(c, v) ==>
              r == Clean(c, Reparse(c, v))
    // a list or dict value (on which `literal_eval` fails) is cleaned in place
    ensures !IsSensitive(c, key) && (v.List? || v.Dict?) ==> r == Clean(c, v)
    // anything else, including a string that parses to a scalar or does not
    // parse at all, and bytes, is kept verbatim
    ensures !IsSensitive(c, key) && !ParsesToCollection(c, v) && !v.List? && !v.Dict? ==> r == v
    decreases Size(v), 1
  {
    var value := Reparse(c, v);
    var cleaned := if value.List? || value.Dict? then Clean(c, value) else v;
    if IsSensitive(c, key) then Str(c.substitute) else cleaned
  }

  /** Every dict reachable through lists and dict values maps each sensitive
      key to the substitute. */
  ghost predicate Masked(c: Cleaner, v: Val)
    decreases v, 1
  {
    && (v.List? ==> forall i :: 0 <= i < |v.items| ==> Masked(c, v.items[i]))
    && (v.Dict? ==> forall i :: 0 <= i < |v.entries| ==> EntryMasked(c, v.entries[i]))
  }

  /** A sensitive entry holds the substitute, and its value is masked below. */
  ghost predicate EntryMasked(c: Cleaner, e: Entry)
    decreases e, 0
  {
    (IsSensitive(c, e.key) ==> e.value == Str(c.substitute)) && Masked(c, e.value)
  }

  /** Cleaning masks every sensitive key at every depth the result has. */
  lemma {:induction false} CleanMasks(c: Cleaner, v: Val)
    ensures Masked(c, Clean(c, v))
    decreases Size(v), 0
  {
    match v
    case List(items) => CleanListMasks(c, items);
    case Dict(es) => CleanEntriesMasks(c, es);
    case _ =>
  }

  lemma {:induction false} CleanListMasks(c: Cleaner, items: seq<Val>)
    ensures forall i :: 0 <= i < |items| ==> Masked(c, Clean(c, items[i]))
    decreases SizeList(items), 1
  {
    if items != [] {
      CleanMasks(c, items[0]);
      CleanListMasks(c, items[1..]);
      forall i | 0 <= i < |items|
        ensures Masked(c, Clean(c, items[i]))
      {
        if i > 0 {
          assert items[i] == items[1..][i - 1];
        }
      }
    }
  }

  lemma {:induction false} CleanEntriesMasks(c: Cleaner, es: seq<Entry>)
    ensures forall i :: 0 <= i < |es| ==> Masked(c, CleanValue(c, es[i].key, es[i].value))
    decreases SizeEntries(es), 2
  {
    if es != [] {
      CleanValueMasks(c, es[0].key, es[0].value);
      CleanEntriesMasks(c, es[1..]);
      forall i | 0 <= i < |es|
        ensures Masked(c, CleanValue(c, es[i].key, es[i].value))
      {
        if i > 0 {
          assert es[i] == es[1..][i - 1];
        }
      }
    }
  }

  lemma {:induction false} CleanValueMasks(c: Cleaner, key: string, v: Val)
    ensures Masked(c, CleanValue(c, key, v))
    decreases Size(v), 1
  {
    var value := Reparse(c, v);
    if !IsSensitive(c, key) {
      if value.List? || value.Dict? {
        CleanMasks(c, value);
      } else {
        // a value kept verbatim is not a collection, so holds no dict
        assert !v.List? && !v.Dict?;
      }
    }
  }

  /** `_clean_data` with its bytes branch corrected: the decoded text is
      re-parsed and cleaned the way a dict value's text is, so a body that
      spells out a dict has its sensitive keys masked. Everything that is not
      bytes is cleaned as before. */
  function CleanRedacting(c: Cleaner, v: Val): (r: Val)
    ensures !v.Bytes? ==> r == Clean(c, v)
    ensures v.Bytes? && ParsesToCollection(c, Str(c.foreign.decode(v.bs))) ==>
              r == Clean(c, Reparse(c, Str(c.foreign.decode(v.bs))))
    ensures v.Bytes? && !ParsesToCollection(c, Str(c.foreign.decode(v.bs))) ==>
              r == Str(c.foreign.decode(v.bs))
  {
    if v.Bytes? then
      var text := Str(c.foreign.decode(v.bs));
      if ParsesToCollection(c, text) then Clean(c, Reparse(c, text)) else text
    else Clean(c, v)
  }

  /** The corrected cleaning masks every sensitive key it can see, including
      those of a body that spells out a dict. */
  lemma CleanRedactingMasks(c: Cleaner, v: Val)
    ensures Masked(c, CleanRedacting(c, v))
  {
    if v.Bytes? {
      var text := Str(c.foreign.decode(v.bs));
      if ParsesToCollection(c, text) {
        CleanMasks(c, Reparse(c, text));
      }
    } else {
      CleanMasks(c, v);
    }
  }

  /** Cleaning twice is cleaning once. */
  lemma {:induction false} CleanIdempotent(c: Cleaner, v: Val)
    ensures Clean(c, Clean(c, v)) == Clean(c, v)
    decreases Size(v), 0
  {
    match v
    case List(items) =>
      CleanListIdempotent(c, items);
      var once := CleanList(c, items);
      assert CleanList(c, once) == once;
    case Dict(es) =>
      CleanEntriesIdempotent(c, es);
      var once := CleanEntries(c, es);
      assert CleanEntries(c, once) == once;
    case _ =>
  }

  lemma {:induction false} CleanListIdempotent(c: Cleaner, items: seq<Val>)
    ensures forall i :: 0 <= i < |items| ==> Clean(c, Clean(c, items[i])) == Clean(c, items[i])
    decreases SizeList(items), 1
  {
    if items != [] {
      CleanIdempotent(c, items[0]);
      CleanListIdempotent(c, items[1..]);
      forall i | 0 <= i < |items|
        ensures Clean(c, Clean(c, items[i])) == Clean(c, items[i])
      {
        if i > 0 {
          assert items[i] == items[1..][i - 1];
        }
      }
    }
  }

  lemma {:induction false} CleanEntriesIdempotent(c: Cleaner, es: seq<Entry>)
    ensures forall i :: 0 <= i < |es| ==>
              CleanValue(c, es[i].key, CleanValue(c, es[i].key, es[i].value))
              == CleanValue(c, es[i].key, es[i].value)
    decreases SizeEntries(es), 2
  {
    if es != [] {
      CleanValueIdempotent(c, es[0].key, es[0].value);
      CleanEntriesIdempotent(c, es[1..]);
      forall i | 0 <= i < |es|
        ensures CleanValue(c, es[i].key, CleanValue(c, es[i].key, es[i].value))
                == CleanValue(c, es[i].key, es[i].value)
      {
        if i > 0 {
          assert es[i] == es[1..][i - 1];
        }
      }
    }
  }

  lemma {:induction false} CleanValueIdempotent(c: Cleaner, key: string, v: Val)
    ensures CleanValue(c, key, CleanValue(c, key, v)) == CleanValue(c, key, v)
    decreases Size(v), 1
  {
    var value := Reparse(c, v);
    if !IsSensitive(c, key) && (value.List? || value.Dict?) {
      CleanIdempotent(c, value);
    }
  }

  /** A value cleaning leaves alone: no bytes outside dict values, no
      sensitive key, and no dict value that is a string spelling out a list
      or a dict. */
  ghost predicate AlreadyClean(c: Cleaner, v: Val)
  {
    match v
    case Bytes(_) => false
    case List(items) => forall i :: 0 <= i < |items| ==> AlreadyClean(c, items[i])
    case Dict(es) =>
      forall i :: 0 <= i < |es| ==>
        && !IsSensitive(c, es[i].key)
        && !ParsesToCollection(c, es[i].value)
        && ((es[i].value.List? || es[i].value.Dict?) ==> AlreadyClean(c, es[i].value))
    case _ => true
  }

  /** On a value that is already clean, cleaning is the identity. */
  lemma {:induction false} CleanFixesAlreadyClean(c: Cleaner, v: Val)
    requires AlreadyClean(c, v)
    ensures Clean(c, v) == v
    decreases v
  {
    match v
    case List(items) =>
      forall i | 0 <= i < |items|
        ensures Clean(c, items[i]) == items[i]
      {
        CleanFixesAlreadyClean(c, items[i]);
      }
      assert CleanList(c, items) == items;
    case Dict(es) =>
      forall i | 0 <= i < |es|
        ensures CleanEntries(c, es)[i] == es[i]
      {
        var e := es[i];
        if e.value.List? || e.value.Dict? {
          CleanFixesAlreadyClean(c, e.value);
        }
      }
      assert CleanEntries(c, es) == es;
    case _ =>
  }
}

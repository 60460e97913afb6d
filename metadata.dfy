/**
 * The message metadata of the publisher-confirm samples: a dictionary from string keys to
 * nullable objects, turned into string message headers and back.
 */
module MessageMetadata {
  import opened Wrappers

  /** A boxed object: the name of its runtime type, the names of that type's base classes and
      interfaces (besides `object`), and what its `ToString()` returns. */
  datatype Boxed = Boxed(typeName: string, bases: set<string>, text: string)

  /** The runtime type name of a boxed string. */
  const StringType := "String"

  /** The runtime type name every object is an instance of. */
  const ObjectType := "Object"

  /** The interfaces `string` implements. */
  const StringBases: set<string> := {"IComparable", "IComparable<String>", "IConvertible",
                                     "IEquatable<String>", "ICloneable", "IEnumerable",
                                     "IEnumerable<Char>", "IParsable<String>",
                                     "ISpanParsable<String>"}

  /** A string, boxed: its ToString() is itself. */
  function OfString(s: string): (b: Boxed)
    ensures b.typeName == StringType && b.bases == StringBases && b.text == s
  {
    Boxed(StringType, StringBases, s)
  }

  /** C#'s `value is T` for a non-null value and the type named `t`: the runtime type itself,
      one of its base classes or interfaces, or `object`, which every value is. */
  predicate Is(b: Boxed, t: string)
  {
    t == ObjectType || b.typeName == t || t in b.bases
  }

  /** The entries of a metadata dictionary: a null value is `None`. */
  type Entries = map<string, Option<Boxed>>

  /** String message headers: a null value is `None`. */
  type Headers = map<string, Option<string>>

  /** The copy FromHeaders makes: every header value boxed as a string, null staying null. */
  function HeaderEntries(headers: Headers): (e: Entries)
    ensures e.Keys == headers.Keys
    ensures forall k :: k in e ==> e[k].None? == headers[k].None?
  {
    map k | k in headers :: if headers[k].Some? then Some(OfString(headers[k].value)) else None
  }

  /** Whether every non-null value is a string. */
  predicate StringValued(e: Entries)
  {
    forall k :: k in e && e[k].Some? ==> e[k].value.typeName == StringType && e[k].value.bases == StringBases
  }

  class Metadata {
    var entries: Entries

    /** The private empty constructor. */
    constructor ()
      ensures entries == map[]
    {
      entries := map[];
    }

    /** A copy of `dictionary`. */
    constructor Copy(dictionary: Entries)
      ensures entries == dictionary
    {
      entries := dictionary;
    }

    /** A null metadata gives a new empty one; any other gives a new copy of it, not the
        instance itself. */
    static method FromMeta(metadata: Metadata?) returns (r: Metadata)
      ensures fresh(r)
      ensures r.entries == if metadata == null then map[] else metadata.entries
    {
      if metadata == null {
        r := new Metadata();
      } else {
        r := new Metadata.Copy(metadata.entries);
      }
    }

    /** Null headers give an empty metadata; otherwise each header becomes an entry under
        the same key, its value boxed as a string. */
    static method FromHeaders(headers: Option<Headers>) returns (r: Metadata)
      ensures fresh(r)
      ensures r.entries == if headers.None? then map[] else HeaderEntries(headers.value)
    {
      if headers.None? {
        r := new Metadata();
      } else {
        r := new Metadata.Copy(HeaderEntries(headers.value));
      }
    }

    /** A non-null value is stored under `key`, replacing any earlier one; a null one changes
        nothing. Either way the same instance is returned, for chaining. */
    method With(key: string, value: Option<Boxed>) returns (r: Metadata)
      modifies this
      ensures r == this
      ensures value.Some? ==> entries == old(entries)[key := value]
      ensures value.None? ==> entries == old(entries)
    {
      if value.Some? {
        entries := entries[key := value];
      }
      r := this;
    }

    /** A non-empty string is stored under `key`, replacing any earlier value; a null or empty
        one changes nothing. The same instance is returned. */
    method Add(key: string, value: Option<string>) returns (r: Metadata)
      modifies this
      ensures r == this
      ensures value.Some? && value.value != "" ==> entries == old(entries)[key := Some(OfString(value.value))]
      ensures value.None? || value.value == "" ==> entries == old(entries)
    {
      if value.Some? && value.value != "" {
        entries := entries[key := Some(OfString(value.value))];
      }
      r := this;
    }

    /** The headers of a message: the same keys, each value rendered with ToString(), null
        staying null. */
    function ToHeaders(): (h: Headers)
      reads this
      ensures h.Keys == entries.Keys
      ensures forall k :: k in h ==> h[k] == if entries[k].Some? then Some(entries[k].value.text) else None
    {
      map k | k in entries :: if entries[k].Some? then Some(entries[k].value.text) else None
    }

    /** The string form of the value under `key`; null when the key is missing or its value
        is null. */
    function GetString(key: string): (r: Option<string>)
      reads this
      ensures r.Some? <==> key in entries && entries[key].Some?
      ensures r.Some? ==> r.value == entries[key].value.text
    {
      if key in entries && entries[key].Some? then Some(entries[key].value.text) else None
    }

    /** The value under `key` as a `t`; `None`, standing for `default(T)`, when the key is
        missing or its value is null or not a `t`. */
    function Get(key: string, t: string): (r: Option<Boxed>)
      reads this
      ensures r.Some? <==> key in entries && entries[key].Some? && Is(entries[key].value, t)
      ensures r.Some? ==> r == entries[key]
    {
      if key in entries && entries[key].Some? && Is(entries[key].value, t) then entries[key] else None
    }
  }

  /** Headers read into a metadata come back unchanged from ToHeaders. */
  lemma HeadersRoundTrip(m: Metadata, headers: Headers)
    requires m.entries == HeaderEntries(headers)
    ensures m.ToHeaders() == headers
  {
    var h := m.ToHeaders();
    forall k | k in h
      ensures h[k] == headers[k]
    {
      if headers[k].Some? {
        assert m.entries[k] == Some(OfString(headers[k].value));
      }
    }
  }

  /** Metadata whose values are all strings survives a trip through headers. */
  lemma EntriesRoundTrip(m: Metadata, e: Entries)
    requires StringValued(m.entries) && e == HeaderEntries(m.ToHeaders())
    ensures e == m.entries
  {
    forall k | k in e
      ensures e[k] == m.entries[k]
    {
      if m.entries[k].Some? {
        assert m.entries[k].value == OfString(m.entries[k].value.text);
      }
    }
  }

  /** After `With(key, v)` with a non-null `v`, Get of v's type and GetString find it, and
      every other key reads as before. */
  lemma WithThenGet(m: Metadata, before: Entries, key: string, v: Boxed)
    requires m.entries == before[key := Some(v)]
    ensures m.Get(key, v.typeName) == Some(v) && m.Get(key, ObjectType) == Some(v)
    ensures forall t :: t in v.bases ==> m.Get(key, t) == Some(v)
    ensures m.GetString(key) == Some(v.text)
    ensures forall k :: k != key ==> m.GetString(k) == (if k in before && before[k].Some? then Some(before[k].value.text) else None)
  {
  }

  /** After `Add(key, s)` with a non-empty `s`, GetString gives back `s`, and Get finds it as a
      string, an object or one of string's interfaces, and as nothing else. */
  lemma AddThenGetString(m: Metadata, before: Entries, key: string, s: string, t: string)
    requires s != "" && m.entries == before[key := Some(OfString(s))]
    ensures m.GetString(key) == Some(s)
    ensures m.Get(key, t).Some? <==> t == StringType || t == ObjectType || t in StringBases
  {
  }
}

/** The streaming writer of the configuration files: tokens go straight out, and one comma
    flag for the object and one for the open array are all it remembers. */
module JsonWriter {
  import opened Common
  import opened Text
  import opened JsonText

  /** The text so far: the brace, the whole members, and what there is of an open array. */
  function Written(members: seq<Member>, open: Option<Member>): string {
    match open
    case None => "{" + MembersText(members)
    case Some(m) =>
      "{" + MembersText(members) + Comma(members != []) + Quote(m.key) + ":" + "["
      + if m.value.Arr? then ItemsText(m.value.items) else ""
  }

  class Writer {
    var out: string
    var objComma: bool
    var arrComma: bool
    /** What has been written: whole members, and the array still open. */
    ghost var members: seq<Member>
    ghost var open: Option<Member>

    /** The flags are exactly what the next token needs to know. */
    ghost predicate Valid()
      reads this
    {
      && objComma == (members != [] || open.Some?)
      && (open.Some? ==> open.value.value.Arr? && arrComma == (open.value.value.items != []))
      && out == Written(members, open)
    }

    /** A fresh stream and the opening brace. */
    constructor ()
      ensures Valid() && members == [] && open == None
    {
      out, objComma, arrComma := "{", false, false;
      members, open := [], None;
    }

    method WriteChar(c: char)
      modifies this`out
      ensures out == old(out) + EscapeChar(c)
    {
      if c == '"' {
        out := out + "\\\"";
      } else if c == '\\' {
        out := out + "\\\\";
      } else if c == '\U{8}' {
        out := out + "\\b";
      } else if c == '\U{c}' {
        out := out + "\\f";
      } else if c == '\n' {
        out := out + "\\n";
      } else if c == '\r' {
        out := out + "\\r";
      } else if c == '\t' {
        out := out + "\\t";
      } else if c < ' ' {
        out := out + ("\\u00" + [HexDigit(c as int / 16), HexDigit(c as int % 16)]);
      } else {
        out := out + [c];
      }
    }

    method WriteBody(v: string)
      modifies this`out
      ensures out == old(out) + Escape(v)
    {
      ghost var start := out;
      for i := 0 to |v|
        invariant out == start + Escape(v[..i])
      {
        EscapeNext(start, v, i);
        WriteChar(v[i]);
      }
      assert v[..|v|] == v;
    }

    method WriteEscaped(v: string)
      modifies this`out
      ensures out == old(out) + Quote(v)
    {
      out := out + "\"";
      WriteBody(v);
      out := out + "\"";
    }

    method WriteScalar(v: Scalar)
      modifies this`out
      ensures out == old(out) + ScalarText(v)
    {
      match v
      case Str(s) => WriteEscaped(s);
      case Num(n) => out := out + (if n < 0 then "-" + Decimal(-n) else Decimal(n));
      case Frac(negative, whole, digits) =>
        out := out + (if negative then "-" else "") + FracText(whole, digits);
      case Bool(b) => out := out + (if b then "true" else "false");
      case Null => out := out + "null";
    }

    method Key(k: string)
      modifies this`out, this`objComma
      ensures out == old(out) + Comma(old(objComma)) + Quote(k) + ":" && objComma
    {
      if objComma {
        out := out + ",";
      }
      objComma := true;
      WriteEscaped(k);
      out := out + ":";
    }

    /** A scalar member. */
    method Add(k: string, v: Scalar)
      requires Valid() && open.None?
      modifies this
      ensures Valid() && open.None? && members == old(members) + [Member(k, One(v))]
    {
      Key(k);
      WriteScalar(v);
      MemberWritten(members, k, One(v));
      members := members + [Member(k, One(v))];
    }

    method ArrBegin(k: string)
      requires Valid() && open.None?
      modifies this
      ensures Valid() && members == old(members) && open == Some(Member(k, Arr([])))
    {
      Key(k);
      out := out + "[";
      arrComma := false;
      open := Some(Member(k, Arr([])));
    }

    /** The comma before an array item. */
    method Separate()
      modifies this`out, this`arrComma
      ensures out == old(out) + Comma(old(arrComma)) && arrComma
    {
      if arrComma {
        out := out + ",";
      }
      arrComma := true;
    }

    method ArrAdd(v: Scalar)
      requires Valid() && open.Some?
      modifies this
      ensures Valid() && members == old(members)
      ensures open == Some(Member(old(open).value.key, Arr(old(open).value.value.items + [v])))
    {
      ghost var key, items := open.value.key, open.value.value.items;
      Separate();
      WriteScalar(v);
      ItemWritten(members, key, items, v);
      open := Some(Member(key, Arr(items + [v])));
    }

    method ArrEnd()
      requires Valid() && open.Some?
      modifies this
      ensures Valid() && open.None? && members == old(members) + [old(open).value]
    {
      out := out + "]";
      ArrayClosed(members, open.value.key, open.value.value.items);
      members, open := members + [open.value], None;
    }

    /** The closing brace: the file is the document of what was written. */
    method End() returns (text: string)
      requires Valid() && open.None?
      ensures text == DocText(members) && ParseDoc(text) == Some(members)
    {
      text := out + "}";
      DocBack(members);
    }
  }

  lemma EscapeNext(start: string, v: string, i: nat)
    requires i < |v|
    ensures start + Escape(v[..i + 1]) == start + Escape(v[..i]) + EscapeChar(v[i])
  {
    assert v[..i + 1][..i] == v[..i];
  }

  lemma Regroup(a: string, b: string, c: string, d: string, e: string, f: string)
    ensures a + b + c + d + e + f == a + (b + c + d + e + f)
  {
  }

  lemma MemberAppended(members: seq<Member>, k: string, v: Value)
    ensures MembersText(members + [Member(k, v)])
         == MembersText(members) + Comma(members != []) + Quote(k) + ":" + ValueText(v)
  {
    var m := Member(k, v);
    assert MemberTexts(members + [m]) == MemberTexts(members) + [MemberText(m)];
    JoinedAppend(MemberTexts(members), MemberText(m));
  }

  lemma MemberWritten(members: seq<Member>, k: string, v: Value)
    ensures Written(members, None) + Comma(members != []) + Quote(k) + ":" + ValueText(v)
         == Written(members + [Member(k, v)], None)
  {
    MemberAppended(members, k, v);
    Regroup("{", MembersText(members), Comma(members != []), Quote(k), ":", ValueText(v));
  }

  lemma ItemAppended(items: seq<Scalar>, v: Scalar)
    ensures ItemsText(items + [v]) == ItemsText(items) + Comma(items != []) + ScalarText(v)
  {
    assert ItemTexts(items + [v]) == ItemTexts(items) + [ScalarText(v)];
    JoinedAppend(ItemTexts(items), ScalarText(v));
  }

  lemma ItemWritten(members: seq<Member>, k: string, items: seq<Scalar>, v: Scalar)
    ensures Written(members, Some(Member(k, Arr(items)))) + Comma(items != []) + ScalarText(v)
         == Written(members, Some(Member(k, Arr(items + [v]))))
  {
    ItemAppended(items, v);
    var start := "{" + MembersText(members) + Comma(members != []) + Quote(k) + ":" + "[";
    Regroup(start, ItemsText(items), Comma(items != []), ScalarText(v), "", "");
  }

  lemma ArrayClosed(members: seq<Member>, k: string, items: seq<Scalar>)
    ensures Written(members, Some(Member(k, Arr(items)))) + "]" == Written(members + [Member(k, Arr(items))], None)
  {
    MemberWritten(members, k, Arr(items));
    var start := Written(members, None) + Comma(members != []) + Quote(k) + ":";
    Regroup(start, "[", ItemsText(items), "]", "", "");
  }
}

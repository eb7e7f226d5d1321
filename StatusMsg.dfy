/** Status messages (relais/dev/statusmsg.py): a message type drawn from
    the enumeration `MSG_CLASS` (info, warning, error) and a text; messages
    order by type, then by text. */
module StatusMsg {
  import opened Results
  import Strings
  import Enum
  import ReprObj

  datatype StatusMsg = StatusMsg(msgType: Enum.EnumValue, msg: string)

  /** The names of `MSG_CLASS`, in ordinal order. */
  const MsgClassNames: seq<string> := ["info", "warning", "error"]

  /** `__cmp__` between two status messages: `cmp` of the types (which
      fails for types of different enumerations), or, when that is 0, `cmp`
      of the texts. */
  function Cmp(a: StatusMsg, b: StatusMsg): (r: Result<int>)
    ensures r.Err? <==> a.msgType.owner != b.msgType.owner
    ensures r.Ok? ==> -1 <= r.value <= 1
    ensures r.Ok? ==> (r.value == 0 <==> a == b)
    ensures r.Ok? ==> (r.value < 0 <==>
      a.msgType.value < b.msgType.value ||
      (a.msgType.value == b.msgType.value && Strings.Cmp(a.msg, b.msg) < 0))
  {
    match Enum.Cmp(a.msgType, b.msgType)
    case Err(e) => Err(e)
    case Ok(c) => Ok(if c != 0 then c else Strings.Cmp(a.msg, b.msg))
  }

  /** Swapping the messages negates the comparison. */
  lemma CmpAntisymmetric(a: StatusMsg, b: StatusMsg)
    requires a.msgType.owner == b.msgType.owner
    ensures Cmp(b, a).value == -Cmp(a, b).value
  {
    Strings.CmpAntisymmetric(a.msg, b.msg);
  }

  /** The order `Cmp(a, b) <= 0` is transitive. */
  lemma CmpTransitive(a: StatusMsg, b: StatusMsg, c: StatusMsg)
    requires a.msgType.owner == b.msgType.owner == c.msgType.owner
    requires Cmp(a, b).value <= 0 && Cmp(b, c).value <= 0
    ensures Cmp(a, c).value <= 0
  {
    if a.msgType.value == b.msgType.value == c.msgType.value {
      Strings.CmpTransitive(a.msg, b.msg, c.msg);
    }
  }

  /** A list sorted by `Cmp` has its types in ordinal order: every info
      message before every warning, and every warning before every error. */
  lemma SortedGroupsByType(ms: seq<StatusMsg>)
    requires forall i, j :: 0 <= i < j < |ms| ==> Cmp(ms[i], ms[j]).Ok? && Cmp(ms[i], ms[j]).value <= 0
    ensures forall i, j :: 0 <= i < j < |ms| ==> ms[i].msgType.value <= ms[j].msgType.value
  {
    forall i, j | 0 <= i < j < |ms|
      ensures ms[i].msgType.value <= ms[j].msgType.value
    {
      var c := Cmp(ms[i], ms[j]);
      assert c.Ok? && c.value <= 0;
    }
  }

  /** The module's state: the enumeration `MSG_CLASS` it creates on import. */
  class StatusMsgModule {
    const msgClass: Enum.EnumClass

    ghost predicate Valid()
      reads this, msgClass
    {
      msgClass.Valid() && msgClass.names == MsgClassNames
    }

    /** Importing the module creates `MSG_CLASS`. */
    constructor ()
      ensures Valid() && fresh(msgClass)
    {
      msgClass := new Enum.EnumClass(MsgClassNames);
    }

    /** `info(msg)`: a message of type `MSG_CLASS.info`, ordinal 0. */
    function Info(msg: string): (m: StatusMsg)
      requires msgClass.names == MsgClassNames
      ensures m.msgType.owner == msgClass && m.msgType.value == 0 && m.msg == msg
    {
      StatusMsg(msgClass.Attr("info").value, msg)
    }

    /** `warning(msg)`: a message of type `MSG_CLASS.warning`, ordinal 1. */
    function Warning(msg: string): (m: StatusMsg)
      requires msgClass.names == MsgClassNames
      ensures m.msgType.owner == msgClass && m.msgType.value == 1 && m.msg == msg
    {
      StatusMsg(msgClass.Attr("warning").value, msg)
    }

    /** `error(msg)`: a message of type `MSG_CLASS.error`, ordinal 2. */
    function Error(msg: string): (m: StatusMsg)
      requires msgClass.names == MsgClassNames
      ensures m.msgType.owner == msgClass && m.msgType.value == 2 && m.msg == msg
    {
      StatusMsg(msgClass.Attr("error").value, msg)
    }

    /** Whatever their texts, info sorts before warning and warning before
        error. */
    lemma TypesOrdered(x: string, y: string)
      requires msgClass.names == MsgClassNames
      ensures Cmp(Info(x), Warning(y)) == Ok(-1)
      ensures Cmp(Warning(x), Error(y)) == Ok(-1)
      ensures Cmp(Info(x), Error(y)) == Ok(-1)
    {
    }
  }

  /** The text of a message: `_repr_fields` is `type, msg`, shown sorted,
      the type by its name. */
  function Text(m: StatusMsg): string
    requires m.msgType.value < |m.msgType.owner.names|
  {
    ReprObj.Unicode("StatusMsg", ["type", "msg"], Attrs(m))
  }

  /** The attributes a message shows. */
  function Attrs(m: StatusMsg): map<string, string>
    requires m.msgType.value < |m.msgType.owner.names|
  {
    map["type" := Enum.Repr(m.msgType), "msg" := m.msg]
  }

  /** The message's fields, `msg` before `type`. */
  lemma TextFields(m: StatusMsg)
    requires m.msgType.value < |m.msgType.owner.names|
    ensures Text(m) == "StatusMsg" + " (" + ReprObj.FieldText(Attrs(m), "msg") + ", " + ReprObj.FieldText(Attrs(m), "type") + ")"
  {
    assert Strings.Cmp("msg", "type") < 0 by {
      assert "msg"[0] == 'm' && "type"[0] == 't';
    }
    ReprObj.TwoFields("StatusMsg", "msg", "type", Attrs(m));
  }

  /** A message shows as `StatusMsg (msg: '<text>', type: '<name>')`. */
  lemma TextShape(m: StatusMsg)
    requires m.msgType.value < |m.msgType.owner.names|
    ensures Text(m) == "StatusMsg (msg: '" + m.msg + "', type: '" + m.msgType.owner.names[m.msgType.value] + "')"
  {
    TextFields(m);
    var name := m.msgType.owner.names[m.msgType.value];
    assert "msg" != "type";
    assert ReprObj.FieldValue(Attrs(m), "msg") == m.msg;
    assert ReprObj.FieldValue(Attrs(m), "type") == name;
    Regroup("StatusMsg", " (", "msg", ": '", m.msg, "'", ", ", "type", ": '", name, "'", ")");
    assert "StatusMsg" + " (" + "msg" + ": '" == "StatusMsg (msg: '";
    assert "'" + ", " + "type" + ": '" == "', type: '";
    assert "'" + ")" == "')";
  }

  /** Regrouping the pieces of a two-field text. */
  lemma Regroup(a: string, b: string, c: string, d: string, x: string, e: string,
                f: string, g: string, h: string, y: string, i: string, j: string)
    ensures a + b + (c + d + x + e) + f + (g + h + y + i) + j ==
      (a + b + c + d) + x + (e + f + g + h) + y + (i + j)
  {
  }
}

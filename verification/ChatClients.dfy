/** The client: the menu of main, the request each choice sends and what its reply changes. */
module ChatClients {
  import opened CText
  import opened Frames
  import opened Requests

  /** if_login of main, with m_uid and m_password of the client object. */
  datatype Client = Client(ifLogin: bool, uid: int, password: string)

  const NEW_CLIENT: Client := Client(false, 0, "")

  datatype Choice =
    | ChooseRegister(uname: string, password: string)
    | ChooseLogin(uid: int, password: string)
    | ChooseDelete(uid: int, password: string)
    | ChooseList(page: int)
    | ChooseFind(who: int)
    | ChooseObtain(who: int)
    | ChooseCreateGroup(gname: string)
    | ChooseLogout

  predicate Int32(n: int) {
    -0x8000_0000 <= n < 0x8000_0000
  }

  /** The choices the menu lets through: three before login, the others after, with checked names. */
  predicate Offered(c: Client, choice: Choice) {
    match choice
    case ChooseRegister(uname, password) => !c.ifLogin && CheckName(uname) && CheckName(password)
    case ChooseLogin(uid, password) => !c.ifLogin && Int32(uid) && CheckName(password)
    case ChooseDelete(uid, password) => !c.ifLogin && Int32(uid) && CheckName(password)
    case ChooseList(page) => c.ifLogin && Int32(page)
    case ChooseFind(who) => c.ifLogin && Int32(who)
    case ChooseObtain(who) => c.ifLogin && Int32(who)
    case ChooseCreateGroup(gname) => c.ifLogin && CheckName(gname)
    case ChooseLogout => c.ifLogin
  }

  function RequestOf(c: Client, choice: Choice): Message {
    match choice
    case ChooseRegister(uname, password) => Message(REGISRERED, TwoFields(uname, password))
    case ChooseLogin(uid, password) => Message(LOGIN, UidRequest(uid, password))
    case ChooseDelete(uid, password) => Message(DELETE_USER, UidRequest(uid, password))
    case ChooseList(page) => Message(USER_LIST, PageRequest(page, 20))
    case ChooseFind(who) => Message(FIND_USER, MemberRequest(c.uid, c.password, Decimal(who)))
    case ChooseObtain(who) => Message(OBTAIN_CLIENT_ADDR, MemberRequest(c.uid, c.password, Decimal(who)))
    case ChooseCreateGroup(gname) => Message(CREATE_GROUP, MemberRequest(c.uid, c.password, gname))
    case ChooseLogout => Message(LOGOUT, UidRequest(c.uid, c.password))
  }

  function WireOf(m: Message): string {
    FrameOf(m.kind, Some(m.body))
  }

  /** The client's answer to "did it succeed", for the calls that return a flag. */
  predicate Succeeded(reply: Message) {
    reply.kind != ERROR && Atoi(reply.body) != 0
  }

  /** logout leaves m_uid and m_password as they are; only if_login is cleared. */
  function AfterReply(c: Client, choice: Choice, reply: Message): Client {
    match choice
    case ChooseLogin(uid, password) => if Succeeded(reply) then Client(true, uid, password) else c
    case ChooseLogout => if Succeeded(reply) then c.(ifLogin := false) else c
    case _ => c
  }

  /** Credentials a login through the menu can have left in the client. */
  predicate ClientOk(c: Client) {
    c.ifLogin ==> Int32(c.uid) && CheckName(c.password)
  }

  lemma DecimalShort(n: int)
    requires Int32(n)
    ensures |Decimal(n)| <= 11
  {
    assert Pow10(10) == 10000000000 by {
      assert Pow10(2) == 100 && Pow10(4) == 10 * (10 * Pow10(2)) && Pow10(6) == 10 * (10 * Pow10(4));
      assert Pow10(8) == 10 * (10 * Pow10(6)) && Pow10(10) == 10 * (10 * Pow10(8));
    }
    DigitsFit(if n < 0 then -n else n, 10);
  }

  lemma RequestShort(c: Client, choice: Choice)
    requires Offered(c, choice) && ClientOk(c)
    ensures |RequestOf(c, choice).body| <= 45 && NUL !in RequestOf(c, choice).body
  {
    match choice
    case ChooseRegister(_, _) =>
    case ChooseLogin(uid, _) => DecimalShort(uid); DecimalPlain(uid);
    case ChooseDelete(uid, _) => DecimalShort(uid); DecimalPlain(uid);
    case ChooseList(page) => DecimalShort(page); DecimalShort(20); DecimalPlain(page); DecimalPlain(20);
    case ChooseFind(who) => DecimalShort(c.uid); DecimalShort(who); DecimalPlain(c.uid); DecimalPlain(who);
    case ChooseObtain(who) => DecimalShort(c.uid); DecimalShort(who); DecimalPlain(c.uid); DecimalPlain(who);
    case ChooseCreateGroup(gname) => DecimalShort(c.uid); DecimalPlain(c.uid);
    case ChooseLogout => DecimalShort(c.uid); DecimalPlain(c.uid);
  }

  /** Every request the menu can send is short, has no NUL, and so reaches the server unchanged. */
  lemma RequestDelivered(c: Client, choice: Choice, stale: string)
    requires Offered(c, choice) && ClientOk(c) && |stale| == BUFFER_SIZE
    ensures ServerDecode(stale, WireOf(RequestOf(c, choice))) == RequestOf(c, choice)
  {
    var m := RequestOf(c, choice);
    RequestShort(c, choice);
    FrameRoundTrip(stale, m.kind, m.body);
  }

  class ChatClient {
    var m_uid: int
    var m_password: string
    var if_login: bool

    function Value(): Client
      reads this
    {
      Client(if_login, m_uid, m_password)
    }

    constructor ()
      ensures Value() == NEW_CLIENT
    {
      m_uid, m_password, if_login := 0, "", false;
    }

    /** The sending half of the client methods. */
    method Send(choice: Choice) returns (wire: string)
      requires Offered(Value(), choice) && ClientOk(Value())
      ensures wire == WireOf(RequestOf(Value(), choice))
    {
      var m := RequestOf(Value(), choice);
      RequestShort(Value(), choice);
      wire := SendMsg(m.kind, Some(m.body));
    }

    /** The receiving half: the reply lands in the client's buffer and updates the login state. */
    method Receive(choice: Choice, buf: array<char>, wire: string)
      requires buf.Length == BUFFER_SIZE
      modifies this, buf
      ensures Value() == AfterReply(old(Value()), choice, ClientDecode(old(buf[..]), wire))
      ensures buf[..] == AfterRecv(old(buf[..]), wire)
      ensures var m := ClientDecode(old(buf[..]), wire);
              var yes := m.kind != ERROR && Atoi(m.body) != 0;
              && (choice.ChooseLogin? && yes ==> if_login && m_uid == choice.uid && m_password == choice.password)
              && (choice.ChooseLogout? && yes ==> !if_login)
              && (!(choice.ChooseLogin? && yes) ==> m_uid == old(m_uid) && m_password == old(m_password))
              && (!((choice.ChooseLogin? || choice.ChooseLogout?) && yes) ==> if_login == old(if_login))
    {
      var ret := Taken(wire);
      forall i | 0 <= i < ret {
        buf[i] := wire[i];
      }
      assert buf[..] == AfterRecv(old(buf[..]), wire);
      var msg := Decode(buf[..]);
      if choice.ChooseLogin? {
        if Succeeded(msg) {
          m_uid, m_password := choice.uid, choice.password;
          if_login := true;
        }
      } else if choice.ChooseLogout? {
        if Succeeded(msg) {
          if_login := false;
        }
      }
    }
  }
}

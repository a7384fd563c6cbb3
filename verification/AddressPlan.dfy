/** The addresses of the game's own machines, computed in bytes, and when they are all different. */
module AddressPlan {
  import opened Text

  newtype byte = x: int | 0 <= x < 256

  /** The conversion of an integer to a byte keeps its last eight bits. */
  function ByteOf(n: int): byte {
    (n % 256) as byte
  }

  function AddBytes(a: byte, b: byte): byte {
    ((a as int + b as int) % 256) as byte
  }

  datatype IPv4 = IPv4(a: byte, b: byte, c: byte, d: byte) {
    function ToString(): string {
      Join([PrintInt(a as int), PrintInt(b as int), PrintInt(c as int), PrintInt(d as int)], '.')
    }
  }

  lemma PrintedPart(n: byte)
    ensures Free(PrintInt(n as int), '.')
  {
  }

  lemma ToStringInjective(x: IPv4, y: IPv4)
    requires x.ToString() == y.ToString()
    ensures x == y
  {
    var xs := [PrintInt(x.a as int), PrintInt(x.b as int), PrintInt(x.c as int), PrintInt(x.d as int)];
    var ys := [PrintInt(y.a as int), PrintInt(y.b as int), PrintInt(y.c as int), PrintInt(y.d as int)];
    PrintedPart(x.a); PrintedPart(x.b); PrintedPart(x.c); PrintedPart(x.d);
    PrintedPart(y.a); PrintedPart(y.b); PrintedPart(y.c); PrintedPart(y.d);
    SplitOfJoin(xs, '.');
    SplitOfJoin(ys, '.');
    assert xs == ys;
    assert xs[0] == ys[0] && xs[1] == ys[1] && xs[2] == ys[2] && xs[3] == ys[3];
    PrintIntInjective(x.a as int, y.a as int);
    PrintIntInjective(x.b as int, y.b as int);
    PrintIntInjective(x.c as int, y.c as int);
    PrintIntInjective(x.d as int, y.d as int);
  }

  // ---------- The plan ----------

  /**
    Every machine that gets an address: the host, the scorebot, two per team and one more for its bot if there are
    bots, and the devices.
   */
  datatype Machine = Host | Scorebot | Team(id: nat) | Soc(id: nat) | Bot(id: nat) | Device(id: nat)

  predicate InPlan(teams: nat, bots: bool, devices: nat, m: Machine) {
    match m
    case Host => true
    case Scorebot => true
    case Team(id) => id < teams
    case Soc(id) => id < teams
    case Bot(id) => bots && id < teams
    case Device(id) => id < devices
  }

  function Subnet(m: Machine): byte {
    match m
    case Host => 0
    case Scorebot => 0
    case Team(_) => 10
    case Soc(_) => 20
    case Bot(_) => 30
    case Device(_) => 30
  }

  function LastByte(m: Machine): byte {
    match m
    case Host => 1
    case Scorebot => 10
    case Team(id) => AddBytes(10, ByteOf(id))
    case Soc(id) => AddBytes(10, ByteOf(id))
    case Bot(id) => AddBytes(10, ByteOf(id))
    case Device(id) => AddBytes(1, ByteOf(id))
  }

  function Address(m: Machine): IPv4 {
    IPv4(10, 40, Subnet(m), LastByte(m))
  }

  lemma WrapsAround(base: byte, id: nat)
    ensures AddBytes(base, ByteOf(id)) as int == (base as int + id) % 256
  {
    var rounds := id / 256;
    assert base as int + id == base as int + id % 256 + 256 * rounds;
  }

  /** The last byte of an address counts up from its base and wraps around at 256, for every id. */
  lemma LastByteOf(m: Machine)
    ensures match m
            case Host => LastByte(m) == 1
            case Scorebot => LastByte(m) == 10
            case Team(id) => LastByte(m) as int == (10 + id) % 256
            case Soc(id) => LastByte(m) as int == (10 + id) % 256
            case Bot(id) => LastByte(m) as int == (10 + id) % 256
            case Device(id) => LastByte(m) as int == (1 + id) % 256
  {
    match m
    case Host =>
    case Scorebot =>
    case Device(id) => WrapsAround(1, id);
    case _ => WrapsAround(10, m.id);
  }

  lemma PrintedConstants()
    ensures PrintInt(0) == "0" && PrintInt(1) == "1" && PrintInt(10) == "10" && PrintInt(20) == "20"
    ensures PrintInt(30) == "30" && PrintInt(40) == "40"
  {
    assert PrintNat(1) == "1" && PrintNat(2) == "2" && PrintNat(3) == "3" && PrintNat(4) == "4";
  }

  lemma DottedText(ip: IPv4)
    ensures ip.ToString() == PrintInt(ip.a as int) + ['.'] + (PrintInt(ip.b as int) + ['.']
                             + (PrintInt(ip.c as int) + ['.'] + PrintInt(ip.d as int)))
  {
    JoinFour(PrintInt(ip.a as int), PrintInt(ip.b as int), PrintInt(ip.c as int), PrintInt(ip.d as int), '.');
  }

  /** The text of every planned address, for every id. */
  lemma AddressText(m: Machine)
    ensures Address(m).ToString() ==
            match m
            case Host => "10.40.0.1"
            case Scorebot => "10.40.0.10"
            case Team(id) => "10.40.10." + PrintInt((10 + id) % 256)
            case Soc(id) => "10.40.20." + PrintInt((10 + id) % 256)
            case Bot(id) => "10.40.30." + PrintInt((10 + id) % 256)
            case Device(id) => "10.40.30." + PrintInt((1 + id) % 256)
  {
    LastByteOf(m);
    PrintedConstants();
    DottedText(Address(m));
  }

  ghost predicate AllDifferent(teams: nat, bots: bool, devices: nat) {
    forall m, n | InPlan(teams, bots, devices, m) && InPlan(teams, bots, devices, n) && m != n ::
      Address(m) != Address(n)
  }

  predicate SmallEnough(teams: nat, bots: bool, devices: nat) {
    teams <= 256 && devices <= 256 && (!bots || teams == 0 || devices == 0 || (teams <= 247 && devices <= 9))
  }

  lemma SmallLastByte(m: Machine)
    ensures m.Device? && m.id < 256 ==> LastByte(m) as int == if m.id < 255 then m.id + 1 else m.id - 255
    ensures (m.Team? || m.Soc? || m.Bot?) && m.id < 256 ==>
              LastByte(m) as int == if m.id < 246 then m.id + 10 else m.id - 246
  {
    LastByteOf(m);
  }

  lemma SmallPlansDiffer(teams: nat, bots: bool, devices: nat, m: Machine, n: Machine)
    requires SmallEnough(teams, bots, devices)
    requires InPlan(teams, bots, devices, m) && InPlan(teams, bots, devices, n) && Address(m) == Address(n)
    ensures m == n
  {
    SmallLastByte(m);
    SmallLastByte(n);
  }

  /** All addresses of a game differ exactly when it is small enough for the bytes not to wrap into each other. */
  lemma DifferentExactly(teams: nat, bots: bool, devices: nat)
    ensures AllDifferent(teams, bots, devices) <==> SmallEnough(teams, bots, devices)
  {
    if SmallEnough(teams, bots, devices) {
      forall m, n | InPlan(teams, bots, devices, m) && InPlan(teams, bots, devices, n) && m != n
        ensures Address(m) != Address(n)
      {
        if Address(m) == Address(n) {
          SmallPlansDiffer(teams, bots, devices, m, n);
        }
      }
    } else if teams > 256 {
      assert InPlan(teams, bots, devices, Team(0)) && InPlan(teams, bots, devices, Team(256))
        && Address(Team(0)) == Address(Team(256));
    } else if devices > 256 {
      assert InPlan(teams, bots, devices, Device(0)) && InPlan(teams, bots, devices, Device(256))
        && Address(Device(0)) == Address(Device(256));
    } else if devices > 9 {
      assert InPlan(teams, bots, devices, Bot(0)) && InPlan(teams, bots, devices, Device(9))
        && Address(Bot(0)) == Address(Device(9));
    } else {
      assert InPlan(teams, bots, devices, Bot(247)) && InPlan(teams, bots, devices, Device(0))
        && Address(Bot(247)) == Address(Device(0));
    }
  }
}

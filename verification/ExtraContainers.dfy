/** Containers defined in a pipeline: name=..,image=..,cpu=..,memory=.. definitions joined by "||". */
module ExtraContainers {
  import opened Outcomes
  import opened Spec
  import opened Text
  import opened Capabilities
  import opened Requests

  const WORKSPACE: string := "workspace"

  // The attributes of one definition; an attribute that was not given is empty.
  datatype Fields = Fields(name: string, image: string, cpu: string, memory: string)

  function Assign(f: Fields, key: string, value: string): Fields {
    if key == "name" then f.(name := value)
    else if key == "image" then f.(image := value)
    else if key == "cpu" then f.(cpu := value)
    else if key == "memory" then f.(memory := value)
    else f
  }

  // None if some attribute is not of the form key=value.
  function ReadFields(attributes: seq<string>): Option<Fields> {
    if attributes == [] then Some(Fields("", "", "", ""))
    else
      var before := ReadFields(attributes[..|attributes| - 1]);
      var keyValues := Split(attributes[|attributes| - 1], "=");
      if before.None? || |keyValues| != 2 then None
      else Some(Assign(before.value, keyValues[0], keyValues[1]))
  }

  // The container a definition stands for; quantity tells which resource quantities are accepted.
  function ReadDefinition(definition: string, quantity: string -> bool): Option<Container> {
    var fields := ReadFields(Split(definition, ","));
    if fields.None? then None
    else
      var f := fields.value;
      if f.name == "" || f.image == "" || (f.cpu != "" && !quantity(f.cpu)) || (f.memory != "" && !quantity(f.memory))
      then None
      else Some(Container(f.name, f.image, [WORKSPACE], f.cpu, f.memory))
  }

  function ReadAll(definitions: seq<string>, quantity: string -> bool): Option<seq<Container>> {
    if definitions == [] then Some([])
    else
      var before := ReadAll(definitions[..|definitions| - 1], quantity);
      var last := ReadDefinition(definitions[|definitions| - 1], quantity);
      if before.None? || last.None? then None else Some(before.value + [last.value])
  }

  function Read(s: string, quantity: string -> bool): Option<seq<Container>> {
    if s == "" then Some([]) else ReadAll(Split(s, "||"), quantity)
  }

  lemma {:induction false} ReadFieldsFails(attributes: seq<string>, i: nat)
    requires i <= |attributes| && ReadFields(attributes[..i]).None?
    ensures ReadFields(attributes).None?
    decreases |attributes| - i
  {
    if i < |attributes| {
      assert attributes[..i + 1][..i] == attributes[..i];
      ReadFieldsFails(attributes, i + 1);
    } else {
      assert attributes[..i] == attributes;
    }
  }

  lemma {:induction false} ReadAllFails(definitions: seq<string>, i: nat, quantity: string -> bool)
    requires i <= |definitions| && ReadAll(definitions[..i], quantity).None?
    ensures ReadAll(definitions, quantity).None?
    decreases |definitions| - i
  {
    if i < |definitions| {
      assert definitions[..i + 1][..i] == definitions[..i];
      ReadAllFails(definitions, i + 1, quantity);
    } else {
      assert definitions[..i] == definitions;
    }
  }

  method ReadAttributes(definition: string) returns (fields: Option<Fields>)
    ensures fields == ReadFields(Split(definition, ","))
  {
    var attributes := Split(definition, ",");
    var f := Fields("", "", "", "");
    for i := 0 to |attributes|
      invariant ReadFields(attributes[..i]) == Some(f)
    {
      assert attributes[..i + 1][..i] == attributes[..i];
      var keyValues := Split(attributes[i], "=");
      if |keyValues| != 2 {
        ReadFieldsFails(attributes, i + 1);
        return None;
      }
      f := Assign(f, keyValues[0], keyValues[1]);
    }
    assert attributes[..|attributes|] == attributes;
    return Some(f);
  }

  method ParseDefinition(definition: string, quantity: string -> bool) returns (container: Option<Container>)
    ensures container == ReadDefinition(definition, quantity)
  {
    hide ReadFields, Split;
    var fields := ReadAttributes(definition);
    if fields.None? || fields.value.name == "" || fields.value.image == ""
       || (fields.value.cpu != "" && !quantity(fields.value.cpu))
       || (fields.value.memory != "" && !quantity(fields.value.memory))
    {
      return None;
    }
    var f := fields.value;
    return Some(Container(f.name, f.image, [WORKSPACE], f.cpu, f.memory));
  }

  method ParseExtraAgentContainerDefinition(s: string, quantity: string -> bool) returns (r: Option<seq<Container>>)
    ensures r == Read(s, quantity)
  {
    hide ReadDefinition;
    var containers := [];
    if s == "" {
      return Some(containers);
    }
    var definitions := Split(s, "||");
    for i := 0 to |definitions|
      invariant ReadAll(definitions[..i], quantity) == Some(containers)
    {
      assert definitions[..i + 1][..i] == definitions[..i];
      var container := ParseDefinition(definitions[i], quantity);
      if container.None? {
        ReadAllFails(definitions, i + 1, quantity);
        return None;
      }
      containers := containers + [container.value];
    }
    assert definitions[..|definitions|] == definitions;
    return Some(containers);
  }

  function Attribute(key: string, value: string): string {
    key + "=" + value
  }

  /** The documented way to write container definitions. */
  function Attributes(c: Container): seq<string> {
    [Attribute("name", c.name), Attribute("image", c.image)]
    + (if c.cpu == "" then [] else [Attribute("cpu", c.cpu)])
    + (if c.memory == "" then [] else [Attribute("memory", c.memory)])
  }

  function Definitions(containers: seq<Container>): seq<string> {
    seq(|containers|, i requires 0 <= i < |containers| => Join(Attributes(containers[i]), ","))
  }

  function Write(containers: seq<Container>): string {
    Join(Definitions(containers), "||")
  }

  predicate CleanChar(c: char) {
    c != ',' && c != '=' && c != '|' && c != ';' && !IsSpace(c)
  }

  predicate CleanField(s: string) {
    forall i | 0 <= i < |s| :: CleanChar(s[i])
  }

  predicate Writable(c: Container, quantity: string -> bool) {
    && c.name != "" && c.image != "" && c.mounts == [WORKSPACE]
    && CleanField(c.name) && CleanField(c.image) && CleanField(c.cpu) && CleanField(c.memory)
    && (c.cpu != "" ==> quantity(c.cpu)) && (c.memory != "" ==> quantity(c.memory))
  }

  // Exactly one '='.
  ghost predicate IsPair(attribute: string) {
    exists i | 0 <= i < |attribute| :: attribute[i] == '=' && '=' !in attribute[..i] && '=' !in attribute[i + 1..]
  }

  // What the last attribute with this key gives.
  function Given(attributes: seq<string>, key: string): string {
    if attributes == [] then ""
    else
      var last := attributes[|attributes| - 1];
      if key + "=" <= last then last[|key| + 1..] else Given(attributes[..|attributes| - 1], key)
  }

  lemma {:induction false} OccursChar(s: string, c: char, j: nat)
    ensures Occurs(s, [c], j) <==> j < |s| && s[j] == c
  {
  }

  lemma {:induction false} PairAt(attribute: string, i: nat)
    requires i < |attribute| && attribute[i] == '=' && '=' !in attribute[..i]
    ensures if '=' !in attribute[i + 1..] then Split(attribute, "=") == [attribute[..i], attribute[i + 1..]]
            else |Split(attribute, "=")| > 2
  {
    forall j: nat ensures Occurs(attribute, "=", j) <==> j < |attribute| && attribute[j] == '=' {
      OccursChar(attribute, '=', j);
    }
    forall j: nat | j < i ensures !Occurs(attribute, "=", j) {
      assert attribute[j] in attribute[..i];
    }
    SplitAtFirst(attribute, "=", i);
    hide Split, Occurs;
    if j :| i + 1 <= j < |attribute| && attribute[j] == '=' {
      assert attribute[i + 1..][j - i - 1] == '=';
    }
  }

  lemma {:induction false} FirstEqualsSign(s: string) returns (i: nat)
    requires '=' in s
    ensures i < |s| && s[i] == '=' && '=' !in s[..i]
  {
    if s[0] == '=' {
      i := 0;
    } else {
      assert s == [s[0]] + s[1..];
      var j := FirstEqualsSign(s[1..]);
      i := j + 1;
      assert s[..i] == [s[0]] + s[1..][..j];
    }
  }

  lemma {:induction false} PairsSplitInTwo(attribute: string)
    ensures IsPair(attribute) <==> |Split(attribute, "=")| == 2
  {
    if '=' in attribute {
      var i := FirstEqualsSign(attribute);
      PairAt(attribute, i);
      hide Split;
    } else {
      CutNone(attribute, "=");
    }
  }

  lemma {:induction false} KeyOfPair(attribute: string, key: string)
    requires IsPair(attribute) && '=' !in key
    ensures |Split(attribute, "=")| == 2 && (Split(attribute, "=")[0] == key <==> key + "=" <= attribute)
    ensures key + "=" <= attribute ==> Split(attribute, "=")[1] == attribute[|key| + 1..]
  {
    var i :| 0 <= i < |attribute| && attribute[i] == '=' && '=' !in attribute[..i] && '=' !in attribute[i + 1..];
    PairAt(attribute, i);
    hide Split;
    StartsWithKey(attribute, key);
    if key + "=" <= attribute {
      SamePlace(attribute, i, |key|);
    }
    hide *;
  }

  lemma {:induction false} StartsWithKey(s: string, key: string)
    ensures key + "=" <= s <==> |key| < |s| && s[|key|] == '=' && s[..|key|] == key
  {
    if |key| < |s| {
      assert s[..|key| + 1] == s[..|key|] + [s[|key|]];
    }
  }

  lemma {:induction false} NoneBefore(s: string, j: nat)
    requires j < |s| && '=' !in s[..j]
    ensures forall k | 0 <= k < j :: s[k] != '='
  {
    forall k | 0 <= k < j ensures s[k] != '=' {
      assert s[..j][k] == s[k];
    }
  }

  lemma {:induction false} SamePlace(s: string, i: nat, j: nat)
    requires i < |s| && j < |s| && s[i] == '=' == s[j] && '=' !in s[..i] && '=' !in s[..j]
    ensures i == j
  {
    NoneBefore(s, i);
    NoneBefore(s, j);
  }

  ghost predicate AllPairs(attributes: seq<string>) {
    forall i | 0 <= i < |attributes| :: IsPair(attributes[i])
  }

  lemma {:induction false} LastAttribute(before: seq<string>, last: string)
    ensures AllPairs(before + [last]) <==> AllPairs(before) && IsPair(last)
    ensures ReadFields(before + [last]) ==
            if ReadFields(before).None? || |Split(last, "=")| != 2 then None
            else Some(Assign(ReadFields(before).value, Split(last, "=")[0], Split(last, "=")[1]))
  {
    hide IsPair, Split, Assign;
    var all := before + [last];
    assert all[..|before|] == before && all[|before|] == last;
    assert forall i | 0 <= i < |before| :: all[i] == before[i];
  }

  lemma {:induction false} LastGiven(before: seq<string>, last: string, key: string)
    ensures Given(before + [last], key) == if key + "=" <= last then last[|key| + 1..] else Given(before, key)
  {
    var all := before + [last];
    assert all[..|before|] == before && all[|before|] == last;
  }

  function GivenFields(attributes: seq<string>): Fields {
    Fields(Given(attributes, "name"), Given(attributes, "image"), Given(attributes, "cpu"), Given(attributes, "memory"))
  }

  lemma {:induction false} LastPairGiven(before: seq<string>, last: string)
    requires IsPair(last)
    ensures |Split(last, "=")| == 2
    ensures Assign(GivenFields(before), Split(last, "=")[0], Split(last, "=")[1]) == GivenFields(before + [last])
  {
    AssignedPair(GivenFields(before), last);
    LastGiven(before, last, "name");
    LastGiven(before, last, "image");
    LastGiven(before, last, "cpu");
    LastGiven(before, last, "memory");
    KeysWithEquals();
    hide Split, Given, Assign, IsPair;
  }

  /** The attributes are read exactly if each has one '='; then the last one with a key counts. */
  lemma {:induction false} FieldsMeanGiven(attributes: seq<string>)
    ensures ReadFields(attributes) == if AllPairs(attributes) then Some(GivenFields(attributes)) else None
  {
    if attributes == [] {
    } else {
      var before, last := attributes[..|attributes| - 1], attributes[|attributes| - 1];
      assert attributes == before + [last];
      hide *;
      FieldsMeanGiven(before);
      LastAttribute(before, last);
      PairsSplitInTwo(last);
      if IsPair(last) {
        LastPairGiven(before, last);
      }
    }
  }

  lemma {:induction false} KeysWithEquals()
    ensures "name" + "=" == "name=" && "image" + "=" == "image=" && "cpu" + "=" == "cpu=" && "memory" + "=" == "memory="
    ensures |"name"| == 4 && |"image"| == 5 && |"cpu"| == 3 && |"memory"| == 6
  {
  }

  /** Exactly which definitions are read, and as what. */
  lemma {:induction false} DefinitionReadExactlyWhen(definition: string, quantity: string -> bool)
    ensures var attributes := Split(definition, ",");
            var name, image := Given(attributes, "name"), Given(attributes, "image");
            var cpu, memory := Given(attributes, "cpu"), Given(attributes, "memory");
            ReadDefinition(definition, quantity) ==
            if AllPairs(attributes) && name != "" && image != "" && (cpu == "" || quantity(cpu)) && (memory == "" || quantity(memory))
            then Some(Container(name, image, ["workspace"], cpu, memory)) else None
  {
    FieldsMeanGiven(Split(definition, ","));
    hide ReadFields, Split, Given, AllPairs;
  }

  ghost predicate AllReadable(definitions: seq<string>, quantity: string -> bool) {
    forall i | 0 <= i < |definitions| :: ReadDefinition(definitions[i], quantity).Some?
  }

  /** One definition that is refused refuses them all. */
  lemma {:induction false} ReadExactlyWhenAll(s: string, quantity: string -> bool)
    ensures Read(s, quantity).Some? <==> s == "" || AllReadable(Split(s, "||"), quantity)
    ensures s != "" && Read(s, quantity).Some? ==>
              var definitions, containers := Split(s, "||"), Read(s, quantity).value;
              && |containers| == |definitions|
              && forall i | 0 <= i < |definitions| :: ReadDefinition(definitions[i], quantity) == Some(containers[i])
  {
    var definitions := Split(s, "||");
    AllReadExactlyWhen(definitions, quantity);
    hide Split, ReadDefinition, ReadAll, AllReadable;
    if s == "" {
      assert Read(s, quantity) == Some([]);
    } else {
      assert Read(s, quantity) == ReadAll(definitions, quantity);
    }
  }

  lemma {:induction false} AllReadExactlyWhen(definitions: seq<string>, quantity: string -> bool)
    ensures ReadAll(definitions, quantity).Some? <==> AllReadable(definitions, quantity)
    ensures ReadAll(definitions, quantity).Some? ==>
              var containers := ReadAll(definitions, quantity).value;
              && |containers| == |definitions|
              && forall i | 0 <= i < |definitions| :: ReadDefinition(definitions[i], quantity) == Some(containers[i])
  {
    hide ReadDefinition;
    if definitions != [] {
      var n := |definitions| - 1;
      AllReadExactlyWhen(definitions[..n], quantity);
      assert forall i | 0 <= i < n :: definitions[..n][i] == definitions[i];
    }
  }

  lemma {:induction false} NoEqualsInKeys()
    ensures '=' !in "name" && '=' !in "image" && '=' !in "cpu" && '=' !in "memory"
  {
  }

  lemma {:induction false} AssignedPair(f: Fields, last: string)
    requires IsPair(last)
    ensures |Split(last, "=")| == 2
    ensures var g := Assign(f, Split(last, "=")[0], Split(last, "=")[1]);
            && g.name == (if "name=" <= last then last[5..] else f.name)
            && g.image == (if "image=" <= last then last[6..] else f.image)
            && g.cpu == (if "cpu=" <= last then last[4..] else f.cpu)
            && g.memory == (if "memory=" <= last then last[7..] else f.memory)
  {
    NoEqualsInKeys();
    KeyOfPair(last, "name");
    KeyOfPair(last, "image");
    KeyOfPair(last, "cpu");
    KeyOfPair(last, "memory");
    KeysWithEquals();
    DifferentKeys();
    hide Split, IsPair;
  }

  lemma {:induction false} DifferentKeys()
    ensures "name" != "image" && "name" != "cpu" && "name" != "memory" && "image" != "cpu" && "image" != "memory" && "cpu" != "memory"
  {
    assert |"name"| == 4 && |"image"| == 5 && |"cpu"| == 3 && |"memory"| == 6;
  }

  lemma {:induction false} ReadOneMore(attributes: seq<string>, f: Fields, key: string, value: string)
    requires ReadFields(attributes) == Some(f)
    requires '=' !in key && '=' !in value
    ensures ReadFields(attributes + [Attribute(key, value)]) == Some(Assign(f, key, value))
  {
    hide Cut, Assign;
    CutFirst(key, "=", value);
    CutNone(value, "=");
    SplitPair(key, value);
    assert (attributes + [Attribute(key, value)])[..|attributes|] == attributes;
  }

  lemma {:induction false} SplitPair(key: string, value: string)
    requires '=' !in key && '=' !in value
    ensures Split(Attribute(key, value), "=") == [key, value]
  {
    SplitJoin([key, value], "=");
  }

  // An optional attribute that is absent is as good as one that is empty.
  lemma {:induction false} ReadOptional(attributes: seq<string>, f: Fields, key: string, value: string)
    requires ReadFields(attributes) == Some(f) && '=' !in key && '=' !in value
    requires value == "" ==> Assign(f, key, value) == f
    ensures ReadFields(attributes + if value == "" then [] else [Attribute(key, value)]) == Some(Assign(f, key, value))
  {
    hide ReadFields, Assign;
    if value == "" {
      assert attributes + [] == attributes;
    } else {
      ReadOneMore(attributes, f, key, value);
    }
  }

  lemma {:induction false} FieldsRoundTrip(c: Container)
    requires CleanField(c.name) && CleanField(c.image) && CleanField(c.cpu) && CleanField(c.memory)
    ensures ReadFields(Attributes(c)) == Some(Fields(c.name, c.image, c.cpu, c.memory))
  {
    var none: seq<string> := [];
    var f := Fields("", "", "", "");
    assert ReadFields(none) == Some(f);
    CleanHasNoEquals(c);
    AssignedByKey();
    hide *;
    var name, image := Attribute("name", c.name), Attribute("image", c.image);
    ReadOneMore(none, f, "name", c.name);
    ReadOneMore(none + [name], f.(name := c.name), "image", c.image);
    ReadOptional(none + [name] + [image], f.(name := c.name, image := c.image), "cpu", c.cpu);
    var b := none + [name] + [image] + (if c.cpu == "" then [] else [Attribute("cpu", c.cpu)]);
    ReadOptional(b, f.(name := c.name, image := c.image, cpu := c.cpu), "memory", c.memory);
    AttributesStepwise(c);
  }

  lemma {:induction false} AttributesStepwise(c: Container)
    ensures Attributes(c) ==
            [] + [Attribute("name", c.name)] + [Attribute("image", c.image)]
            + (if c.cpu == "" then [] else [Attribute("cpu", c.cpu)])
            + (if c.memory == "" then [] else [Attribute("memory", c.memory)])
  {
  }

  lemma {:induction false} CleanHasNoEquals(c: Container)
    requires CleanField(c.name) && CleanField(c.image) && CleanField(c.cpu) && CleanField(c.memory)
    ensures '=' !in c.name && '=' !in c.image && '=' !in c.cpu && '=' !in c.memory
    ensures '=' !in "name" && '=' !in "image" && '=' !in "cpu" && '=' !in "memory"
  {
  }

  lemma {:induction false} AssignedByKey()
    ensures forall g, v :: Assign(g, "name", v) == g.(name := v)
    ensures forall g, v :: Assign(g, "image", v) == g.(image := v)
    ensures forall g, v :: Assign(g, "cpu", v) == g.(cpu := v)
    ensures forall g, v :: Assign(g, "memory", v) == g.(memory := v)
  {
    assert |"name"| == 4 && |"image"| == 5 && |"cpu"| == 3 && |"memory"| == 6;
  }

  lemma {:induction false} AttributeAvoids(key: string, value: string, bad: char)
    requires bad != '=' && bad !in key && bad !in value
    ensures bad !in Attribute(key, value)
  {
  }

  lemma {:induction false} AttributesAvoid(c: Container, bad: char)
    requires bad != '=' && bad !in "nameimagecpumemory"
    requires bad !in c.name && bad !in c.image && bad !in c.cpu && bad !in c.memory
    ensures forall p | p in Attributes(c) :: bad !in p
  {
    KeysAvoid(bad);
    hide Attribute;
    AttributeAvoids("name", c.name, bad);
    AttributeAvoids("image", c.image, bad);
    AttributeAvoids("cpu", c.cpu, bad);
    AttributeAvoids("memory", c.memory, bad);
  }

  lemma {:induction false} KeysAvoid(bad: char)
    requires bad !in "nameimagecpumemory"
    ensures bad !in "name" && bad !in "image" && bad !in "cpu" && bad !in "memory"
  {
    var keys := "nameimagecpumemory";
    assert keys[0..4] == "name" && keys[4..9] == "image" && keys[9..12] == "cpu" && keys[12..] == "memory";
    assert forall i | 0 <= i < |keys| :: keys[i] != bad;
  }

  lemma {:induction false} DefinitionRoundTrip(c: Container, quantity: string -> bool)
    requires Writable(c, quantity)
    ensures ReadDefinition(Join(Attributes(c), ","), quantity) == Some(c)
  {
    AttributesAvoid(c, ',');
    SplitJoin(Attributes(c), ",");
    FieldsRoundTrip(c);
  }

  lemma {:induction false} JoinAvoids(parts: seq<string>, sep: string, bad: char)
    requires bad !in sep && forall p | p in parts :: bad !in p
    ensures bad !in Join(parts, sep)
  {
    if |parts| > 1 {
      JoinAvoids(parts[1..], sep, bad);
    }
  }

  lemma {:induction false} AllRoundTrip(containers: seq<Container>, n: nat, quantity: string -> bool)
    requires n <= |containers| && forall c | c in containers :: Writable(c, quantity)
    ensures ReadAll(Definitions(containers)[..n], quantity) == Some(containers[..n])
  {
    hide ReadDefinition, Writable, Join, Attributes;
    if n > 0 {
      AllRoundTrip(containers, n - 1, quantity);
      DefinitionRoundTrip(containers[n - 1], quantity);
      var defs := Definitions(containers);
      assert defs[..n][..n - 1] == defs[..n - 1];
      assert defs[..n][n - 1] == Join(Attributes(containers[n - 1]), ",");
      assert containers[..n] == containers[..n - 1] + [containers[n - 1]];
    }
  }

  /** Reading back written definitions gives the same containers in the same order. */
  lemma {:induction false} WriteRead(containers: seq<Container>, quantity: string -> bool)
    requires forall c | c in containers :: Writable(c, quantity)
    ensures Read(Write(containers), quantity) == Some(containers)
  {
    if containers != [] {
      var defs := Definitions(containers);
      forall d | d in defs ensures '|' !in d {
        var i :| 0 <= i < |defs| && defs[i] == d;
        assert containers[i] in containers;
        AttributesAvoid(containers[i], '|');
        JoinAvoids(Attributes(containers[i]), ",", '|');
      }
      SplitJoin(defs, "||");
      AllRoundTrip(containers, |containers|, quantity);
      assert defs[..|defs|] == defs && containers[..|containers|] == containers;
      assert |Attributes(containers[0])| >= 2;
      assert |Write(containers)| > 0;
    }
  }

  lemma {:induction false} TrimKeeps(s: string)
    requires s != "" ==> !IsSpace(s[0]) && !IsSpace(s[|s| - 1])
    ensures TrimSpace(s) == s
  {
  }

  lemma {:induction false} WrittenHasNoSpace(containers: seq<Container>, bad: char, quantity: string -> bool)
    requires forall c | c in containers :: Writable(c, quantity)
    requires IsSpace(bad) || bad == ';'
    ensures bad !in Write(containers)
  {
    var defs := Definitions(containers);
    forall d | d in defs ensures bad !in d {
      var i :| 0 <= i < |defs| && defs[i] == d;
      assert containers[i] in containers;
      AttributesAvoid(containers[i], bad);
      JoinAvoids(Attributes(containers[i]), ",", bad);
    }
    JoinAvoids(defs, "||", bad);
  }

  lemma {:induction false} DemandCarries(m: Caps, s: string)
    requires forall i | 0 <= i < |s| :: !IsSpace(s[i])
    ensures AddDemand(m, EXTRA_CONTAINERS + EQUALS + s) == m[EXTRA_CONTAINERS := s]
  {
    var demand := EXTRA_CONTAINERS + EQUALS + s;
    assert demand[0] == 'E' && VERSION_DEMAND[0] == 'A';
    assert !(VERSION_DEMAND <= demand);
    CutFirst(EXTRA_CONTAINERS, EQUALS, s);
    CutNone(s, EQUALS);
    assert Split(s, EQUALS) == [s];
    assert Split(demand, EQUALS) == [EXTRA_CONTAINERS, s];
    TrimKeeps(EXTRA_CONTAINERS);
    TrimKeeps(s);
  }

  // The demand is about something else than extra containers.
  predicate Silent(demand: string) {
    EXTRA_CONTAINERS !in AddDemand(map[], demand)
  }

  lemma {:induction false} SilentKeeps(m: Caps, demand: string)
    requires Silent(demand)
    ensures EXTRA_CONTAINERS in m ==>
              EXTRA_CONTAINERS in AddDemand(m, demand) && AddDemand(m, demand)[EXTRA_CONTAINERS] == m[EXTRA_CONTAINERS]
  {
  }

  lemma {:induction false} LaterDemandsKeep(before: seq<string>, after: seq<string>)
    requires EXTRA_CONTAINERS in DemandsOf(before) && forall d | d in after :: Silent(d)
    ensures EXTRA_CONTAINERS in DemandsOf(before + after)
    ensures DemandsOf(before + after)[EXTRA_CONTAINERS] == DemandsOf(before)[EXTRA_CONTAINERS]
  {
    hide AddDemand, Silent;
    if after == [] {
      assert before + after == before;
    } else {
      var n := |after| - 1;
      LaterDemandsKeep(before, after[..n]);
      assert (before + after)[..|before| + n] == before + after[..n] && (before + after)[|before| + n] == after[n];
      assert after[n] in after;
      SilentKeeps(DemandsOf(before + after[..n]), after[n]);
    }
  }

  // The other demands mean what they would mean without this one.
  lemma {:induction false} OthersUnaffected(before: seq<string>, demand: string, s: string, after: seq<string>)
    requires AddDemand(DemandsOf(before), demand) == DemandsOf(before)[EXTRA_CONTAINERS := s]
    ensures DemandsOf(before + [demand] + after) - {EXTRA_CONTAINERS} == DemandsOf(before + after) - {EXTRA_CONTAINERS}
  {
    hide AddDemand;
    var with, without := before + [demand] + after, before + after;
    if after == [] {
      assert with[..|before|] == before && with[|before|] == demand && without == before;
    } else {
      var n := |after| - 1;
      OthersUnaffected(before, demand, s, after[..n]);
      assert with[..|before| + 1 + n] == before + [demand] + after[..n] && with[|before| + 1 + n] == after[n];
      assert without[..|before| + n] == before + after[..n] && without[|before| + n] == after[n];
      SameButOne(DemandsOf(before + [demand] + after[..n]), DemandsOf(before + after[..n]), after[n]);
    }
  }

  lemma {:induction false} SameButOne(a: Caps, b: Caps, demand: string)
    requires a - {EXTRA_CONTAINERS} == b - {EXTRA_CONTAINERS}
    ensures AddDemand(a, demand) - {EXTRA_CONTAINERS} == AddDemand(b, demand) - {EXTRA_CONTAINERS}
  {
    hide Split, TrimSpace;
    assert forall k | k != EXTRA_CONTAINERS :: (k in a <==> k in a - {EXTRA_CONTAINERS}) && (k in b <==> k in b - {EXTRA_CONTAINERS});
    forall k | k in a && k != EXTRA_CONTAINERS ensures k in b && a[k] == b[k] {
      assert a[k] == (a - {EXTRA_CONTAINERS})[k];
    }
  }

  /**
   A list of containers written as a demand arrives unchanged, wherever the demand stands in the request, as
   long as no later one is about extra containers too: through the demand parser, the printed capability map
   of the pod, its parser, and the definition parser. The other demands arrive as they would without it.
   */
  lemma {:induction false} ContainersArrive(before: seq<string>, containers: seq<Container>, after: seq<string>,
                                            quantity: string -> bool)
    requires forall c | c in containers :: Writable(c, quantity)
    requires forall d | d in after :: Silent(d)
    requires Clean(DemandsOf(before + after) - {EXTRA_CONTAINERS})
    ensures var all := before + [EXTRA_CONTAINERS + EQUALS + Write(containers)] + after;
            var caps := Parse(Print(DemandsOf(all)));
            && caps - {EXTRA_CONTAINERS} == DemandsOf(before + after) - {EXTRA_CONTAINERS}
            && EXTRA_CONTAINERS in caps && Read(caps[EXTRA_CONTAINERS], quantity) == Some(containers)
  {
    var s := Write(containers);
    var demand := EXTRA_CONTAINERS + EQUALS + s;
    var first := before + [demand];
    var m := DemandsOf(first + after);
    WrittenIsPlain(containers, quantity);
    DemandCarries(DemandsOf(before), s);
    hide AddDemand, Print, Parse, Read, Write, Writable, Silent, Clean;
    assert first[..|before|] == before && first[|before|] == demand;
    LaterDemandsKeep(first, after);
    OthersUnaffected(before, demand, s, after);
    CleanDemand(m, s);
    ParsePrint(m);
    WriteRead(containers, quantity);
  }

  lemma {:induction false} WrittenIsPlain(containers: seq<Container>, quantity: string -> bool)
    requires forall c | c in containers :: Writable(c, quantity)
    ensures ';' !in Write(containers)
    ensures forall i | 0 <= i < |Write(containers)| :: !IsSpace(Write(containers)[i])
  {
    hide Write, Writable;
    var s := Write(containers);
    WrittenHasNoSpace(containers, ';', quantity);
    forall i | 0 <= i < |s| ensures !IsSpace(s[i]) {
      if IsSpace(s[i]) { WrittenHasNoSpace(containers, s[i], quantity); }
    }
  }

  lemma {:induction false} CleanDemand(m: Caps, s: string)
    requires EXTRA_CONTAINERS in m && m[EXTRA_CONTAINERS] == s && Clean(m - {EXTRA_CONTAINERS}) && ';' !in s
    ensures Clean(m)
  {
    forall k | k in m ensures '=' !in k && ';' !in k && ';' !in m[k] {
      if k != EXTRA_CONTAINERS {
        assert k in m - {EXTRA_CONTAINERS} && m[k] == (m - {EXTRA_CONTAINERS})[k];
      }
    }
  }
}

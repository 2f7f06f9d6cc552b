/** The rule that reports contract fields no function of the contract's impl block uses. */
module UnusedStateVariables {
  import opened Wrappers
  import opened RustAst
  import opened RuleEngine

  datatype Violation = Violation(structName: string, variable: string)

  predicate Contains(text: string, part: string) {
    exists i :: 0 <= i <= |text| && part <= text[i..]
  }

  predicate IsContractPath(path: string) {
    Contains(path, "contractimpl") || Contains(path, "contracttype") || Contains(path, "stellar_contract")
  }

  predicate IsSorobanContract(decl: StructItem) {
    exists a :: a in decl.attrs && !a.NameValueAttr? && IsContractPath(a.path)
  }

  predicate IsVariableUsed(name: string, used: set<string>) {
    name in used ||
    exists u :: u in used && (Contains(u, "self." + name) || Contains(u, "self?." + name))
  }

  // ----- What the rule reports -----

  function ContractStructs(items: seq<Item>): seq<StructItem> {
    if items == [] then []
    else if items[0].StructDecl? && IsSorobanContract(items[0].decl) then
      [items[0].decl] + ContractStructs(items[1..])
    else ContractStructs(items[1..])
  }

  /** Impl blocks by the name of their self type; a later block replaces an earlier one. */
  function ContractImpls(items: seq<Item>): map<string, ImplBlock> {
    if items == [] then map[]
    else
      var last := items[|items| - 1];
      var others := ContractImpls(items[..|items| - 1]);
      if last.ImplDecl? then others[last.block.selfType := last.block] else others
  }

  function UnusedOf(structName: string, fields: seq<string>, used: set<string>): seq<Violation> {
    if fields == [] then []
    else if IsVariableUsed(fields[0], used) then UnusedOf(structName, fields[1..], used)
    else [Violation(structName, fields[0])] + UnusedOf(structName, fields[1..], used)
  }

  function Findings(structs: seq<StructItem>, impls: map<string, ImplBlock>): seq<Violation> {
    if structs == [] then []
    else
      var decl := structs[0];
      (if decl.name in impls then UnusedOf(decl.name, decl.fields, FnsVars(impls[decl.name].fns)) else [])
      + Findings(structs[1..], impls)
  }

  // ----- The rule -----

  class Rule {
    constructor () {}

    method FindContractStructs(items: seq<Item>) returns (structs: seq<StructItem>)
      ensures structs == ContractStructs(items)
    {
      structs := [];
      for i := 0 to |items|
        invariant structs + ContractStructs(items[i..]) == ContractStructs(items)
      {
        if items[i].StructDecl? && IsSorobanContract(items[i].decl) {
          structs := structs + [items[i].decl];
        }
      }
    }

    method FindContractImpls(items: seq<Item>) returns (impls: map<string, ImplBlock>)
      ensures impls == ContractImpls(items)
    {
      impls := map[];
      for i := 0 to |items|
        invariant impls == ContractImpls(items[..i])
      {
        assert items[..i + 1][..i] == items[..i];
        if items[i].ImplDecl? {
          impls := impls[items[i].block.selfType := items[i].block];
        }
      }
      assert items[..|items|] == items;
    }

    method Check(items: seq<Item>) returns (violations: seq<Violation>)
      ensures violations == Findings(ContractStructs(items), ContractImpls(items))
    {
      violations := [];
      var structs := FindContractStructs(items);
      var impls := FindContractImpls(items);
      for i := 0 to |structs|
        invariant violations + Findings(structs[i..], impls) == Findings(structs, impls)
      {
        var decl := structs[i];
        ghost var before := violations;
        if decl.name in impls {
          var used := FindVariableUsage(impls[decl.name]);
          for j := 0 to |decl.fields|
            invariant violations + UnusedOf(decl.name, decl.fields[j..], used)
                   == before + UnusedOf(decl.name, decl.fields, used)
          {
            if !IsVariableUsed(decl.fields[j], used) {
              violations := violations + [Violation(decl.name, decl.fields[j])];
            }
          }
          assert violations == before + UnusedOf(decl.name, decl.fields, used);
        }
      }
    }
  }

  // ----- What the reports mean -----

  /** Some contract struct named `s` declares `f`, and `s`'s last impl block does not use it. */
  ghost predicate Reported(items: seq<Item>, s: string, f: string) {
    s in ContractImpls(items) &&
    !IsVariableUsed(f, FnsVars(ContractImpls(items)[s].fns)) &&
    exists i :: 0 <= i < |items| && DeclaresContractField(items[i], s, f)
  }

  predicate DeclaresContractField(item: Item, s: string, f: string) {
    item.StructDecl? && IsSorobanContract(item.decl) && item.decl.name == s && f in item.decl.fields
  }

  lemma {:induction false} InUnusedOf(structName: string, fields: seq<string>, used: set<string>, v: Violation)
    ensures v in UnusedOf(structName, fields, used) <==>
            v.structName == structName && v.variable in fields && !IsVariableUsed(v.variable, used)
  {
    if fields == [] {
    } else {
      InUnusedOf(structName, fields[1..], used, v);
    }
  }

  lemma {:induction false} InContractStructs(items: seq<Item>, decl: StructItem)
    ensures decl in ContractStructs(items) <==>
            exists i :: 0 <= i < |items| && items[i] == StructDecl(decl) && IsSorobanContract(decl)
  {
    if items == [] {
    } else {
      InContractStructs(items[1..], decl);
      if decl in ContractStructs(items[1..]) {
        var i :| 0 <= i < |items[1..]| && items[1..][i] == StructDecl(decl);
        assert items[i + 1] == StructDecl(decl);
      }
      if i :| 0 <= i < |items| && items[i] == StructDecl(decl) && IsSorobanContract(decl) {
        if i > 0 {
          assert items[1..][i - 1] == StructDecl(decl);
        }
      }
    }
  }

  lemma {:induction false} InFindings(structs: seq<StructItem>, impls: map<string, ImplBlock>, v: Violation)
    ensures v in Findings(structs, impls) <==>
            exists i :: 0 <= i < |structs| && structs[i].name == v.structName && v.variable in structs[i].fields &&
                        v.structName in impls && !IsVariableUsed(v.variable, FnsVars(impls[v.structName].fns))
  {
    if structs == [] {
    } else {
      var decl := structs[0];
      InFindings(structs[1..], impls, v);
      if decl.name in impls {
        InUnusedOf(decl.name, decl.fields, FnsVars(impls[decl.name].fns), v);
      }
      if i :| 0 <= i < |structs| && structs[i].name == v.structName && v.variable in structs[i].fields && i > 0 {
        assert structs[1..][i - 1] == structs[i];
      }
      if i :| 0 <= i < |structs[1..]| && structs[1..][i].name == v.structName && v.variable in structs[1..][i].fields {
        assert structs[i + 1] == structs[1..][i];
      }
    }
  }

  /** A field is among the rule's findings exactly when it is reported in the sense above. */
  lemma FindingsAreReports(items: seq<Item>, s: string, f: string)
    ensures Violation(s, f) in Findings(ContractStructs(items), ContractImpls(items)) <==> Reported(items, s, f)
  {
    var structs, impls := ContractStructs(items), ContractImpls(items);
    InFindings(structs, impls, Violation(s, f));
    if Violation(s, f) in Findings(structs, impls) {
      var i :| 0 <= i < |structs| && structs[i].name == s && f in structs[i].fields;
      InContractStructs(items, structs[i]);
      var j :| 0 <= j < |items| && items[j] == StructDecl(structs[i]);
      assert DeclaresContractField(items[j], s, f);
    }
    if Reported(items, s, f) {
      var i :| 0 <= i < |items| && DeclaresContractField(items[i], s, f);
      InContractStructs(items, items[i].decl);
      assert items[i].decl in structs;
    }
  }

  lemma ContainsKeepsCharacters(text: string, part: string, c: char)
    requires Contains(text, part) && c in part
    ensures c in text
  {
    var i :| 0 <= i <= |text| && part <= text[i..];
    var k :| 0 <= k < |part| && part[k] == c;
    assert text[i + k] == text[i..][k];
  }

  /** Identifiers contain no dot, so the `self.`-prefixed patterns of the usage test never decide it. */
  lemma UsageTestIsMembership(name: string, used: set<string>)
    requires forall u :: u in used ==> '.' !in u
    ensures IsVariableUsed(name, used) <==> name in used
  {
    forall u | u in used
      ensures !Contains(u, "self." + name) && !Contains(u, "self?." + name)
    {
      assert ("self." + name)[4] == '.' && ("self?." + name)[5] == '.';
      if Contains(u, "self." + name) {
        ContainsKeepsCharacters(u, "self." + name, '.');
      }
      if Contains(u, "self?." + name) {
        ContainsKeepsCharacters(u, "self?." + name, '.');
      }
    }
  }
}

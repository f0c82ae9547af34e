/** The routing table of common/src/routing.c: one next hop and metric per destination. */
module Routing {
  import opened Settings

  datatype RoutingNode = RoutingNode(addr: uint8, metric: int8)

  const NO_ROUTE := RoutingNode(UINT8_MAX, 0)

  type Table = t: seq<RoutingNode> | |t| == NODE_COUNT witness seq(NODE_COUNT, i => NO_ROUTE)

  function NextAddr(table: Table, dest: uint8): uint8 {
    if dest < NODE_COUNT then table[dest].addr else UINT8_MAX
  }

  function Get(table: Table, dest: uint8): RoutingNode {
    if dest < NODE_COUNT then table[dest] else NO_ROUTE
  }

  function SetAddr(table: Table, dest: uint8, next: uint8, metric: int8): Table {
    if dest < NODE_COUNT then table[dest := RoutingNode(next, metric)] else table
  }

  function Del(table: Table, dest: uint8): Table {
    if dest < NODE_COUNT then table[dest := NO_ROUTE] else table
  }

  function EmptyTable(): Table {
    seq(NODE_COUNT, i => NO_ROUTE)
  }

  /** routing_table_t, updated in place. */
  class RoutingTable {
    const nodes: array<RoutingNode>

    ghost predicate Valid() {
      nodes.Length == NODE_COUNT
    }

    ghost function Contents(): Table
      requires Valid()
      reads nodes
    {
      nodes[..]
    }

    constructor ()
      ensures Valid() && fresh(nodes) && Contents() == EmptyTable()
    {
      nodes := new RoutingNode[NODE_COUNT](i => NO_ROUTE);
    }

    method FillDefault()
      requires Valid()
      modifies nodes
      ensures Contents() == EmptyTable()
    {
      var i := 0;
      while i < NODE_COUNT
        invariant 0 <= i <= NODE_COUNT
        invariant forall k :: 0 <= k < i ==> nodes[k] == NO_ROUTE
      {
        nodes[i] := NO_ROUTE;
        i := i + 1;
      }
    }

    method Next(dest: uint8) returns (addr: uint8)
      requires Valid()
      ensures addr == NextAddr(Contents(), dest)
    {
      if dest < NODE_COUNT {
        addr := nodes[dest].addr;
      } else {
        addr := UINT8_MAX;
      }
    }

    method Lookup(dest: uint8) returns (node: RoutingNode)
      requires Valid()
      ensures node == Get(Contents(), dest)
    {
      if dest < NODE_COUNT {
        node := nodes[dest];
      } else {
        node := NO_ROUTE;
      }
    }

    method Set(dest: uint8, next: uint8, metric: int8)
      requires Valid()
      modifies nodes
      ensures Contents() == SetAddr(old(Contents()), dest, next, metric)
    {
      if dest < NODE_COUNT {
        nodes[dest] := RoutingNode(next, metric);
      }
    }

    method Delete(dest: uint8)
      requires Valid()
      modifies nodes
      ensures Contents() == Del(old(Contents()), dest)
    {
      if dest < NODE_COUNT {
        nodes[dest] := NO_ROUTE;
      }
    }
  }
}

/** Where the scene walk begins. */
module SceneRoots {
  import opened Wrappers
  import opened Gltf
  import opened SceneWalk

  // The roots are those of the chosen scene, where there is such a scene and it lists any.
  lemma {:induction false} RootsOfScene(doc: Document, roots: seq<nat>)
    requires doc.scene < |doc.scenes| && doc.scenes[doc.scene] == Some(roots)
    ensures Roots(doc) == roots
    ensures forall i: nat :: i in roots && i < |doc.nodes| ==> i in Indices(Visited(doc))
  {
    forall i: nat | i in roots && i < |doc.nodes| ensures i in Indices(Visited(doc)) {
      RootIsVisited(doc, i);
    }
  }

  lemma {:induction false} RootIsVisited(doc: Document, i: nat)
    requires i in Roots(doc) && i < |doc.nodes|
    ensures i in Indices(Visited(doc))
  {
    assert [i][..0] == [];
    assert Chain(doc, []) && Follows(doc, [], i);
    assert Chain(doc, [i]);
    ChainIsVisited(doc, [i]);
  }

  // Otherwise the walk starts from every node, so all of them are visited.
  lemma {:induction false} NoSceneVisitsAll(doc: Document, i: nat)
    requires doc.scene >= |doc.scenes| || doc.scenes[doc.scene].None?
    requires i < |doc.nodes|
    ensures i in Indices(Visited(doc))
  {
    assert Roots(doc)[i] == i;
    RootIsVisited(doc, i);
  }
}

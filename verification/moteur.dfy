/**
 The engine core of moteur.py: objects (`Objet`, `Entitee`), and the `Scene`,
 a registry of named rooms ("salles"), each an ordered list of objects, one of
 which is current.

 Python objects and lists are mutable and shared by reference, and the update
 pass depends on that: it iterates the list object it fetched once, while the
 objects' own `actualiser` may append to that very list or replace the room
 entry. The model therefore keeps two stores in the scene value:
 - `objets`, every object created so far, addressed by a `Ref`;
 - `listes`, every room list created so far, addressed by its position;
 and `salles` maps a room name to the position of its current list.
 Neither store ever shrinks, as a Python object stays alive while referenced.
 */
module Moteur {
  import opened Sequences

  /** A reference to an object: its position in the object store. */
  type Ref = nat

  datatype Option<+T> = None | Some(value: T)

  datatype Erreur =
    | SalleInconnue(nom: string)     // the KeyError of `self.salles[nom]`
    | Exception(message: string)     // a fault raised by an object's own `actualiser`
    | PasseInterminable              // the pass needed more visits than its budget (see Actualiser)

  datatype Result<+T> = Ok(value: T) | Err(erreur: Erreur)

  /** What an `Entitee` adds to a plain `Objet`: a position and a velocity. */
  datatype Corps = Simple | Entitee(x: real, y: real, dx: real, dy: real)

  datatype Objet = Objet(zPos: real, vivant: bool, etiquettes: set<string>, corps: Corps)

  /** `Objet.__init__`: alive, untagged, with nothing to move. */
  function NouvelObjet(zPos: real): (o: Objet)
    ensures o.vivant && o.etiquettes == {} && o.zPos == zPos
    ensures o.corps.Simple?
  {
    Objet(zPos, true, {}, Simple)
  }

  /** `Entitee.__init__`: an object at depth 1, at `(x, y)`, standing still. */
  function NouvelleEntitee(x: real, y: real): (o: Objet)
    ensures o.vivant && o.etiquettes == {} && o.zPos == 1.0
    ensures o.corps == Entitee(x, y, 0.0, 0.0)
  {
    Objet(1.0, true, {}, Entitee(x, y, 0.0, 0.0))
  }

  /** `Objet.ajouter_etiquette`: a set insertion. */
  function AjouterEtiquette(o: Objet, etiquette: string): (r: Objet)
    ensures etiquette in r.etiquettes
    ensures r.etiquettes - {etiquette} == o.etiquettes - {etiquette}
    ensures r.vivant == o.vivant && r.corps == o.corps && r.zPos == o.zPos
  {
    o.(etiquettes := o.etiquettes + {etiquette})
  }

  lemma AjouterEtiquetteIdempotent(o: Objet, etiquette: string)
    ensures AjouterEtiquette(AjouterEtiquette(o, etiquette), etiquette) == AjouterEtiquette(o, etiquette)
  {
  }

  /** `Objet.tuer`: the object is dead and nothing else about it changed. */
  function Tuer(o: Objet): (r: Objet)
    ensures !r.vivant
    ensures r.(vivant := o.vivant) == o
  {
    o.(vivant := false)
  }

  /** `Entitee.actualiser`: one step of the position by the velocity scaled by
      the game's `dt`; a plain `Objet` has nothing to move. */
  function Deplacer(o: Objet, dt: real): (r: Objet)
    ensures r.vivant == o.vivant && r.etiquettes == o.etiquettes && r.zPos == o.zPos
    ensures o.corps.Simple? ==> r == o
    ensures o.corps.Entitee? ==> r.corps.Entitee? && r.corps.dx == o.corps.dx && r.corps.dy == o.corps.dy
    ensures o.corps.Entitee? ==>
      r.corps.x == o.corps.x + o.corps.dx * dt && r.corps.y == o.corps.y + o.corps.dy * dt
  {
    match o.corps
    case Simple => o
    case Entitee(x, y, dx, dy) => o.(corps := Entitee(x + dx * dt, y + dy * dt, dx, dy))
  }

  /** Moving by `dt1` and then by `dt2` is moving by `dt1 + dt2`: the step is
      linear in `dt`, so the motion does not depend on how time is sliced
      into frames. */
  lemma {:induction false} DeplacerComposition(o: Objet, dt1: real, dt2: real)
    ensures Deplacer(Deplacer(o, dt1), dt2) == Deplacer(o, dt1 + dt2)
  {
    match o.corps
    case Simple =>
    case Entitee(x, y, dx, dy) =>
      var un := Deplacer(o, dt1);
      assert un.corps == Entitee(x + dx * dt1, y + dy * dt1, dx, dy);
      assert Deplacer(un, dt2).corps == Entitee(x + dx * dt1 + dx * dt2, y + dy * dt1 + dy * dt2, dx, dy);
      assert dx * dt1 + dx * dt2 == dx * (dt1 + dt2);
      assert dy * dt1 + dy * dt2 == dy * (dt1 + dt2);
      assert Deplacer(o, dt1 + dt2).corps == Entitee(x + dx * (dt1 + dt2), y + dy * (dt1 + dt2), dx, dy);
  }

  /** A newly built object, plain or entity, stays where it is on its first
      updates, whatever the frame's `dt`: its velocity is zero. */
  lemma {:induction false} NouveauImmobile(zPos: real, x: real, y: real, dt: real)
    ensures Deplacer(NouvelObjet(zPos), dt) == NouvelObjet(zPos)
    ensures Deplacer(NouvelleEntitee(x, y), dt) == NouvelleEntitee(x, y)
  {
    assert 0.0 * dt == 0.0;
  }

  datatype Scene = Scene(salles: map<string, nat>, listes: seq<seq<Ref>>, objets: seq<Objet>, actuelle: string)

  /** Every room names a list of the store, no two rooms share a list, and
      every listed reference designates a stored object. The current room is
      NOT required to exist: `changer_salle` does not check its argument. */
  predicate Valide(s: Scene) {
    && (forall n :: n in s.salles ==> s.salles[n] < |s.listes|)
    && (forall n, n' :: n in s.salles && n' in s.salles && n != n' ==> s.salles[n] != s.salles[n'])
    && (forall l, k :: 0 <= l < |s.listes| && 0 <= k < |s.listes[l]| ==> s.listes[l][k] < |s.objets|)
  }

  type Monde = s: Scene | Valide(s) witness Scene(map["defaut" := 0], [[]], [], "defaut")

  /** The objects of room `nom`, in room order. */
  function Contenu(s: Monde, nom: string): seq<Ref>
    requires nom in s.salles
  {
    s.listes[s.salles[nom]]
  }

  /** The room an operation with an optional `salle` argument acts on. */
  function Cible(s: Scene, salle: Option<string>): string {
    match salle
    case Some(nom) => nom
    case None => s.actuelle
  }

  /** `Scene.__init__`. */
  function Nouvelle(): (s: Monde)
    ensures s.salles.Keys == {"defaut"}
    ensures Contenu(s, "defaut") == []
    ensures s.actuelle == "defaut"
    ensures s.objets == []
  {
    Scene(map["defaut" := 0], [[]], [], "defaut")
  }

  /** Creating an object: it is stored under a fresh reference; no room
      holds it until it is bound with `Lier`. */
  function Creer(s: Monde, o: Objet): (r: (Monde, Ref))
    ensures r.1 == |s.objets| && r.0.objets == s.objets + [o]
    ensures r.0.salles == s.salles && r.0.listes == s.listes && r.0.actuelle == s.actuelle
  {
    (s.(objets := s.objets + [o]), |s.objets|)
  }

  /** Replacing the state of one stored object, as a method call on it does. */
  function Modifier(s: Monde, o: Ref, nouveau: Objet): (r: Monde)
    requires o < |s.objets|
    ensures r.objets == s.objets[o := nouveau]
    ensures r.salles == s.salles && r.listes == s.listes && r.actuelle == s.actuelle
  {
    s.(objets := s.objets[o := nouveau])
  }

  /** The test `etiquette in objet.etiquettes`. */
  function PorteEtiquette(s: Monde, etiquette: string): Ref -> bool {
    (o: Ref) => o < |s.objets| && etiquette in s.objets[o].etiquettes
  }

  /** The test `objet.vivant`. */
  function EstVivant(s: Monde): Ref -> bool {
    (o: Ref) => o < |s.objets| && s.objets[o].vivant
  }

  /** `Scene.filtrer`: the objects of the room (the current one when no room
      is given) that carry the tag, whether alive or not; a KeyError when the
      room does not exist. */
  function Filtrer(s: Monde, etiquette: string, salle: Option<string>): (r: Result<seq<Ref>>)
    ensures Cible(s, salle) !in s.salles <==> r == Err(SalleInconnue(Cible(s, salle)))
    ensures r.Ok? ==> forall o :: o in r.value <==>
      o in Contenu(s, Cible(s, salle)) && etiquette in s.objets[o].etiquettes
  {
    var nom := Cible(s, salle);
    if nom !in s.salles then Err(SalleInconnue(nom))
    else Ok(Keep(Contenu(s, nom), PorteEtiquette(s, etiquette)))
  }

  /** `filtrer` keeps room order: its k-th result is the object at the k-th
      position of the room, in increasing order of position, whose object
      carries the tag (`Positions` lists those positions). */
  lemma FiltrerEnOrdreDeSalle(s: Monde, etiquette: string, salle: Option<string>)
    requires Cible(s, salle) in s.salles
    ensures var c := Contenu(s, Cible(s, salle));
      var idx := Positions(c, PorteEtiquette(s, etiquette));
      && Filtrer(s, etiquette, salle).Ok?
      && |Filtrer(s, etiquette, salle).value| == |idx|
      && (forall k :: 0 <= k < |idx| ==> Filtrer(s, etiquette, salle).value[k] == c[idx[k]])
      && (forall i :: 0 <= i < |c| ==> (i in idx <==> etiquette in s.objets[c[i]].etiquettes))
  {
    var c := Contenu(s, Cible(s, salle));
    var p := PorteEtiquette(s, etiquette);
    var idx := Positions(c, p);
    KeepIsSelection(c, p);
    forall i | 0 <= i < |c|
      ensures i in idx <==> etiquette in s.objets[c[i]].etiquettes
    {
      if i in idx {
        var k :| 0 <= k < |idx| && idx[k] == i;
      }
    }
  }

  /** `filtrer` does not look at liveness: killing any object leaves every
      query result unchanged. */
  lemma {:induction false} FiltrerIgnoreLaVie(s: Monde, o: Ref, etiquette: string, salle: Option<string>)
    requires o < |s.objets|
    ensures Filtrer(Modifier(s, o, Tuer(s.objets[o])), etiquette, salle) == Filtrer(s, etiquette, salle)
  {
    var s' := Modifier(s, o, Tuer(s.objets[o]));
    var nom := Cible(s, salle);
    if nom in s.salles {
      KeepAgreeing(Contenu(s, nom), PorteEtiquette(s', etiquette), PorteEtiquette(s, etiquette));
    }
  }

  /** `Scene.lier`: appends the object to the room (the current one when no
      room is given), in place: the room keeps its list, which grows by one,
      so a pass iterating that list sees the new object; a KeyError when the
      room does not exist. */
  function Lier(s: Monde, o: Ref, salle: Option<string>): (r: Result<Monde>)
    requires o < |s.objets|
    ensures Cible(s, salle) !in s.salles <==> r == Err(SalleInconnue(Cible(s, salle)))
    ensures r.Ok? ==>
      && r.value.salles == s.salles
      && Contenu(r.value, Cible(s, salle)) == Contenu(s, Cible(s, salle)) + [o]
      && ListesProlongees(s, r.value) && |r.value.listes| == |s.listes|
      && (forall l :: 0 <= l < |s.listes| && l != s.salles[Cible(s, salle)] ==> r.value.listes[l] == s.listes[l])
      && r.value.actuelle == s.actuelle
      && r.value.objets == s.objets
  {
    var nom := Cible(s, salle);
    if nom !in s.salles then Err(SalleInconnue(nom))
    else
      var l := s.salles[nom];
      Ok(s.(listes := s.listes[l := s.listes[l] + [o]]))
  }

  /** Binding and then querying: an object bound with the tag shows up last in
      the room's query result, after everything that was already there. */
  lemma {:induction false} LierPuisFiltrer(s: Monde, o: Ref, etiquette: string, nom: string)
    requires o < |s.objets| && nom in s.salles
    requires etiquette in s.objets[o].etiquettes
    ensures Lier(s, o, Some(nom)).Ok?
    ensures Filtrer(Lier(s, o, Some(nom)).value, etiquette, Some(nom)).Ok?
    ensures Filtrer(Lier(s, o, Some(nom)).value, etiquette, Some(nom)).value
         == Filtrer(s, etiquette, Some(nom)).value + [o]
  {
    var s' := Lier(s, o, Some(nom)).value;
    var c := Contenu(s, nom);
    assert PorteEtiquette(s', etiquette) == PorteEtiquette(s, etiquette);
    KeepAppend(c, [o], PorteEtiquette(s, etiquette));
    assert Keep([o], PorteEtiquette(s, etiquette)) == [o] by {
      assert [o][..0] == [];
    }
  }

  /** Three tagged objects bound one after the other into an empty room are
      what a query on that room returns, in the order they were bound. */
  lemma {:induction false} TroisLiesEnOrdre(s: Monde, nom: string, etiquette: string, a: Ref, b: Ref, c: Ref)
    requires nom in s.salles && Contenu(s, nom) == []
    requires a < |s.objets| && b < |s.objets| && c < |s.objets|
    requires etiquette in s.objets[a].etiquettes && etiquette in s.objets[b].etiquettes
    requires etiquette in s.objets[c].etiquettes
    ensures Lier(s, a, Some(nom)).Ok?
    ensures Lier(Lier(s, a, Some(nom)).value, b, Some(nom)).Ok?
    ensures Lier(Lier(Lier(s, a, Some(nom)).value, b, Some(nom)).value, c, Some(nom)).Ok?
    ensures Filtrer(Lier(Lier(Lier(s, a, Some(nom)).value, b, Some(nom)).value, c, Some(nom)).value,
                    etiquette, Some(nom)) == Ok([a, b, c])
  {
    var s1 := Lier(s, a, Some(nom)).value;
    var s2 := Lier(s1, b, Some(nom)).value;
    assert Filtrer(s, etiquette, Some(nom)) == Ok([]);
    LierPuisFiltrer(s, a, etiquette, nom);
    assert Filtrer(s1, etiquette, Some(nom)).value == [a];
    LierPuisFiltrer(s1, b, etiquette, nom);
    assert Filtrer(s2, etiquette, Some(nom)).value == [a, b];
    LierPuisFiltrer(s2, c, etiquette, nom);
    var s3 := Lier(s2, c, Some(nom)).value;
    assert Filtrer(s3, etiquette, Some(nom)).value == [a, b, c];
  }

  /** Without a room argument, `filtrer` and `lier` act on the current room,
      whatever `changer_salle` last set it to. */
  lemma SalleParDefautEstActuelle(s: Monde, o: Ref, etiquette: string)
    requires o < |s.objets|
    ensures Filtrer(s, etiquette, None) == Filtrer(s, etiquette, Some(s.actuelle))
    ensures Lier(s, o, None) == Lier(s, o, Some(s.actuelle))
  {
  }

  /** `Scene.nouvelle_salle`: the name now denotes a fresh empty list, whether
      or not a room of that name existed; other rooms are untouched, and the
      list the name denoted before survives in the store. */
  function NouvelleSalle(s: Monde, nom: string): (r: Monde)
    ensures r.salles.Keys == s.salles.Keys + {nom}
    ensures Contenu(r, nom) == []
    ensures forall n :: n in s.salles && n != nom ==> Contenu(r, n) == Contenu(s, n)
    ensures |s.listes| <= |r.listes| && forall l :: 0 <= l < |s.listes| ==> r.listes[l] == s.listes[l]
    ensures r.actuelle == s.actuelle && r.objets == s.objets
  {
    s.(salles := s.salles[nom := |s.listes|], listes := s.listes + [[]])
  }

  /** A room just created (or just replaced) answers every query with
      nothing, and binding into it gives a room holding only that object. */
  lemma NouvelleSalleVide(s: Monde, nom: string, etiquette: string, o: Ref)
    requires o < |s.objets|
    ensures Filtrer(NouvelleSalle(s, nom), etiquette, Some(nom)) == Ok([])
    ensures Lier(NouvelleSalle(s, nom), o, Some(nom)).Ok?
    ensures Contenu(Lier(NouvelleSalle(s, nom), o, Some(nom)).value, nom) == [o]
  {
  }

  /** `Scene.changer_salle`: only the current name changes; nothing checks
      that a room of that name exists. */
  function ChangerSalle(s: Monde, nom: string): (r: Monde)
    ensures r.actuelle == nom
    ensures r.salles == s.salles && r.listes == s.listes && r.objets == s.objets
  {
    s.(actuelle := nom)
  }

  /** The end of the pass (moteur.py line 31): the room that is current NOW
      is read again and replaced by a new list of its live objects; a KeyError
      when that room does not exist. */
  function Compacter(s: Monde): (r: Result<Monde>)
    ensures s.actuelle !in s.salles <==> r == Err(SalleInconnue(s.actuelle))
    ensures r.Ok? ==>
      && r.value.salles.Keys == s.salles.Keys
      && Contenu(r.value, s.actuelle) == Keep(Contenu(s, s.actuelle), EstVivant(s))
      && (forall n :: n in s.salles && n != s.actuelle ==> Contenu(r.value, n) == Contenu(s, n))
      && r.value.actuelle == s.actuelle
      && r.value.objets == s.objets
  {
    if s.actuelle !in s.salles then Err(SalleInconnue(s.actuelle))
    else
      var vivants := Keep(Contenu(s, s.actuelle), EstVivant(s));
      assert forall k :: 0 <= k < |vivants| ==> vivants[k] in Contenu(s, s.actuelle);
      var w := s.(salles := s.salles[s.actuelle := |s.listes|], listes := s.listes + [vivants]);
      assert Valide(w);
      Ok(w)
  }

  /** A second compaction with no object dying in between removes nothing:
      the room holds only live objects after the first. */
  lemma {:induction false} CompacterIdempotent(s: Monde)
    requires s.actuelle in s.salles
    ensures Compacter(s).Ok? && Compacter(Compacter(s).value).Ok?
    ensures Contenu(Compacter(Compacter(s).value).value, s.actuelle) == Contenu(Compacter(s).value, s.actuelle)
  {
    var c1 := Compacter(s).value;
    assert EstVivant(c1) == EstVivant(s);
    KeepIdempotent(Contenu(s, s.actuelle), EstVivant(s));
  }

  /** The stores of `b` extend those of `a`. */
  ghost predicate Prolonge(a: Scene, b: Scene) {
    |a.listes| <= |b.listes| && |a.objets| <= |b.objets|
  }

  ghost predicate NeRetrecitPas(f: (Monde, Ref) -> Result<Monde>) {
    forall s: Monde, o: Ref :: f(s, o).Ok? ==> Prolonge(s, f(s, o).value)
  }

  /** `Objet.actualiser`: the default does nothing. */
  function ActualiserObjet(s: Monde, o: Ref): Result<Monde> {
    Ok(s)
  }

  /** What `objet.actualiser(scene)` does, for every class of object: given the
      scene and the object, the scene afterwards, or the fault it raised. It
      may move or kill objects, create objects, bind them to any room, create
      rooms or change the current room. */
  type Comportement = f: (Monde, Ref) -> Result<Monde> | NeRetrecitPas(f) witness ActualiserObjet

  /** The behaviour of the two classes moteur.py defines: an `Entitee` moves
      by its velocity times `dt`, a plain `Objet` does nothing. */
  function ActualiserDeBase(dt: real): Comportement {
    (s: Monde, o: Ref) =>
      if o < |s.objets| then Ok(Modifier(s, o, Deplacer(s.objets[o], dt))) else Ok(s)
  }

  /** The lists of `b` extend those of `a`: nothing was removed from or
      reordered in any list, at most appended. */
  ghost predicate ListesProlongees(a: Scene, b: Scene) {
    |a.listes| <= |b.listes| && forall l :: 0 <= l < |a.listes| ==> a.listes[l] <= b.listes[l]
  }

  /** A behaviour that at most appends to lists. */
  ghost predicate AjouteSeulement(f: Comportement) {
    forall s: Monde, o: Ref :: f(s, o).Ok? ==> ListesProlongees(s, f(s, o).value)
  }

  /** Same rooms, lists and current room, and every existing object is as
      alive as before. */
  ghost predicate MemeStructure(a: Scene, b: Scene) {
    && b.salles == a.salles && b.listes == a.listes && b.actuelle == a.actuelle
    && |a.objets| <= |b.objets|
    && forall k :: 0 <= k < |a.objets| ==> b.objets[k].vivant == a.objets[k].vivant
  }

  /** A behaviour that never fails, never touches rooms or lists, and never
      changes whether an object is alive. */
  ghost predicate Passif(f: Comportement) {
    forall s: Monde, o: Ref :: f(s, o).Ok? && MemeStructure(s, f(s, o).value)
  }

  /** The built-in behaviour only moves entities: it is passive. */
  lemma ActualiserDeBasePassif(dt: real)
    ensures Passif(ActualiserDeBase(dt))
  {
  }

  lemma PassifAjouteSeulement(f: Comportement)
    requires Passif(f)
    ensures AjouteSeulement(f)
  {
    forall s: Monde, o: Ref ensures f(s, o).Ok? ==> ListesProlongees(s, f(s, o).value) {
      assert MemeStructure(s, f(s, o).value);
    }
  }

  /** Every object, on each update, creates a copy of `modele` and binds it
      into the current room; the copies do the same when they are updated. */
  function Engendrer(modele: Objet): Comportement {
    (s: Monde, o: Ref) =>
      var (s1, n) := Creer(s, modele);
      Lier(s1, n, None)
  }

  /** Binding only appends: a behaviour built on `lier` is one whose new
      objects the pass visits. */
  lemma EngendrerAjouteSeulement(modele: Objet)
    ensures AjouteSeulement(Engendrer(modele))
  {
    forall s: Monde, o: Ref | Engendrer(modele)(s, o).Ok?
      ensures ListesProlongees(s, Engendrer(modele)(s, o).value)
    {
      var (s1, n) := Creer(s, modele);
      assert ListesProlongees(s1, Lier(s1, n, None).value);
    }
  }

  /** The pass, as a recursive definition: apply the behaviour to the object
      at position `i` of list `l0`, in the scene the previous calls left, then
      go on from position `i + 1` of that list as it now is. It stops when no
      position remains, at the first fault, or when `limite` objects have been
      visited and one more remains. */
  function Parcours(b: Monde, l0: nat, i: nat, comportement: Comportement, limite: nat): (r: Result<Monde>)
    requires l0 < |b.listes|
    ensures r.Ok? ==> Prolonge(b, r.value) && (|r.value.listes[l0]| <= i || |r.value.listes[l0]| <= limite)
    decreases limite - i
  {
    if i >= |b.listes[l0]| then Ok(b)
    else if i >= limite then Err(PasseInterminable)
    else
      match comportement(b, b.listes[l0][i])
      case Err(e) => Err(e)
      case Ok(b') => Parcours(b', l0, i + 1, comportement, limite)
  }

  /** When every object, including those it spawns, binds a new object into
      the current room at each update, a non-empty room never finishes its
      pass: Python's loop runs forever, the model runs out of visits. */
  lemma {:induction false} EngendrerSansFin(b: Monde, i: nat, modele: Objet, limite: nat)
    requires b.actuelle in b.salles && i < |Contenu(b, b.actuelle)|
    ensures Parcours(b, b.salles[b.actuelle], i, Engendrer(modele), limite) == Err(PasseInterminable)
    decreases limite - i
  {
    var l0 := b.salles[b.actuelle];
    if i < limite {
      var b' := Engendrer(modele)(b, b.listes[l0][i]).value;
      var (s1, n) := Creer(b, modele);
      assert b' == Lier(s1, n, None).value;
      EngendrerSansFin(b', i + 1, modele, limite);
    }
  }

  /** The tag that marks a shooter in `Tirer`. */
  const TIREUR: string := "tireur"

  /** A shooter and its projectiles: an object tagged `TIREUR` creates a copy
      of `modele` and binds it into the current room on each update; every
      other object does nothing. */
  function Tirer(modele: Objet): Comportement {
    (s: Monde, o: Ref) =>
      if o < |s.objets| && TIREUR in s.objets[o].etiquettes then
        var (s1, n) := Creer(s, modele);
        Lier(s1, n, None)
      else Ok(s)
  }

  lemma TirerAjouteSeulement(modele: Objet)
    ensures AjouteSeulement(Tirer(modele))
  {
    forall s: Monde, o: Ref | Tirer(modele)(s, o).Ok?
      ensures ListesProlongees(s, Tirer(modele)(s, o).value)
    {
      if o < |s.objets| && TIREUR in s.objets[o].etiquettes {
        var (s1, n) := Creer(s, modele);
        assert ListesProlongees(s1, Lier(s1, n, None).value);
      }
    }
  }

  /** The shooter's visit: its projectile is stored under the next free
      reference and appended to the current room's list. */
  lemma {:induction false} TirDuTireur(s: Monde, t: Ref, modele: Objet)
    requires s.actuelle in s.salles && t < |s.objets| && TIREUR in s.objets[t].etiquettes
    ensures Tirer(modele)(s, t).Ok?
    ensures var s' := Tirer(modele)(s, t).value;
      && s'.salles == s.salles && s'.actuelle == s.actuelle
      && s'.objets == s.objets + [modele]
      && s'.listes[s.salles[s.actuelle]] == Contenu(s, s.actuelle) + [|s.objets|]
  {
    var (s1, n) := Creer(s, modele);
    assert Tirer(modele)(s, t) == Lier(s1, n, None);
  }

  /** One shooter alone in the current room: the pass ends, having visited
      the shooter and then, in the same pass, the projectile it bound. */
  lemma {:induction false} UnTireurUnProjectile(s: Monde, t: Ref, modele: Objet, limite: nat)
    requires s.actuelle in s.salles && Contenu(s, s.actuelle) == [t]
    requires t < |s.objets| && TIREUR in s.objets[t].etiquettes
    requires TIREUR !in modele.etiquettes
    requires 2 <= limite
    ensures var p := Parcours(s, s.salles[s.actuelle], 0, Tirer(modele), limite);
      && p.Ok?
      && p.value.salles == s.salles && p.value.actuelle == s.actuelle
      && p.value.listes[s.salles[s.actuelle]] == [t, |s.objets|]
      && p.value.objets == s.objets + [modele]
  {
    var l0 := s.salles[s.actuelle];
    TirDuTireur(s, t, modele);
    var s2 := Tirer(modele)(s, t).value;
    assert s2.listes[l0] == [t, |s.objets|];
    assert Parcours(s, l0, 0, Tirer(modele), limite) == Parcours(s2, l0, 1, Tirer(modele), limite);
    assert Tirer(modele)(s2, |s.objets|) == Ok(s2);
    assert Parcours(s2, l0, 1, Tirer(modele), limite) == Parcours(s2, l0, 2, Tirer(modele), limite);
    assert Parcours(s2, l0, 2, Tirer(modele), limite) == Ok(s2);
  }

  /** `Scene.actualiser`, one frame of the current room.

      The loop walks the list object that the current room denoted when the
      pass began, by index, re-reading its length at every step as Python's
      list iterator does: objects appended to it during the pass are visited
      in that same pass, and the walk goes on over that list even if an
      object switched rooms or replaced the room. Afterwards the room that is
      current at that point is compacted (`Compacter`).

      Python would loop forever on a room that grows at every visit; the
      model stops with `PasseInterminable` once `limite` objects have been
      visited and one more remains, even on a pass Python would finish.

      Out: `r` the scene after the frame, or the error; `boucle` the scene
      when the loop stopped; `visites` the objects whose `actualiser`
      completed, in order. */
  method Actualiser(s: Monde, comportement: Comportement, limite: nat)
    returns (r: Result<Monde>, boucle: Monde, visites: seq<Ref>)
    ensures Prolonge(s, boucle)
    ensures s.actuelle !in s.salles ==> r == Err(SalleInconnue(s.actuelle)) && visites == []
    // the loop ran to its end exactly when the iterated list has no unvisited position
    ensures s.actuelle in s.salles ==>
      var l0 := s.salles[s.actuelle];
      && (|boucle.listes[l0]| <= |visites| ==> r == Compacter(boucle))
      && (|visites| < |boucle.listes[l0]| ==> r.Err?)
    ensures |visites| <= limite
    // the scene after the loop is the one the recursive definition of the
    // pass gives, and the frame's result is its compaction
    ensures s.actuelle in s.salles ==>
      var p := Parcours(s, s.salles[s.actuelle], 0, comportement, limite);
      && (p.Ok? ==> boucle == p.value && r == Compacter(p.value))
      && (p.Err? ==> r == Err(p.erreur))
    // a behaviour that only appends: every position of the list, including
    // those appended during the pass, was visited once, in order
    ensures s.actuelle in s.salles && AjouteSeulement(comportement) && r.Ok? ==>
      visites == boucle.listes[s.salles[s.actuelle]]
    // a passive behaviour: the room is visited as it was and loses its dead
    ensures s.actuelle in s.salles && Passif(comportement) && |Contenu(s, s.actuelle)| <= limite ==>
      && r.Ok?
      && visites == Contenu(s, s.actuelle)
      && r.value.salles.Keys == s.salles.Keys
      && Contenu(r.value, s.actuelle) == Keep(Contenu(s, s.actuelle), EstVivant(s))
      && (forall n :: n in s.salles && n != s.actuelle ==> Contenu(r.value, n) == Contenu(s, n))
  {
    boucle := s;
    visites := [];
    if s.actuelle !in s.salles {
      r := Err(SalleInconnue(s.actuelle));
      return;
    }
    var l0 := s.salles[s.actuelle];
    var i := 0;
    while i < |boucle.listes[l0]|
      invariant Prolonge(s, boucle)
      invariant |visites| == i <= limite
      invariant AjouteSeulement(comportement) ==>
        i <= |boucle.listes[l0]| && visites == boucle.listes[l0][..i]
      invariant Passif(comportement) ==> MemeStructure(s, boucle)
      invariant Parcours(boucle, l0, i, comportement, limite) == Parcours(s, l0, 0, comportement, limite)
      decreases limite - i
    {
      if i == limite {
        assert Parcours(boucle, l0, i, comportement, limite) == Err(PasseInterminable);
        r := Err(PasseInterminable);
        return;
      }
      var o := boucle.listes[l0][i];
      var res := comportement(boucle, o);
      if res.Err? {
        assert Parcours(boucle, l0, i, comportement, limite) == Err(res.erreur);
        r := Err(res.erreur);
        return;
      }
      assert Parcours(boucle, l0, i, comportement, limite) == Parcours(res.value, l0, i + 1, comportement, limite);
      assert Prolonge(boucle, res.value);
      ghost var avant := boucle;
      visites := visites + [o];
      boucle := res.value;
      i := i + 1;
      if AjouteSeulement(comportement) {
        assert ListesProlongees(avant, boucle);
        assert avant.listes[l0] <= boucle.listes[l0];
        assert boucle.listes[l0][..i] == avant.listes[l0][..i - 1] + [o];
      }
      if Passif(comportement) {
        assert MemeStructure(avant, boucle);
      }
    }
    assert Parcours(boucle, l0, i, comportement, limite) == Ok(boucle);
    r := Compacter(boucle);
    if Passif(comportement) && |Contenu(s, s.actuelle)| <= limite {
      PassifAjouteSeulement(comportement);
      KeepAgreeing(Contenu(s, s.actuelle), EstVivant(boucle), EstVivant(s));
    }
  }

  /** `n` successive updates of an object by `dt`. */
  function DeplacerN(o: Objet, n: nat, dt: real): (r: Objet)
    ensures r.vivant == o.vivant && r.etiquettes == o.etiquettes && r.zPos == o.zPos
    decreases n
  {
    if n == 0 then o else DeplacerN(Deplacer(o, dt), n - 1, dt)
  }

  /** `n` updates by `dt` move as far as one update by `n * dt`. */
  lemma {:induction false} DeplacerNLineaire(o: Objet, n: nat, dt: real)
    ensures DeplacerN(o, n, dt) == Deplacer(o, (n as real) * dt)
    decreases n
  {
    if n == 0 {
      DeplacerParZero(o, dt);
    } else {
      DeplacerNLineaire(Deplacer(o, dt), n - 1, dt);
      DeplacerUneFoisDePlus(o, n - 1, dt);
    }
  }

  /** The objects of `objs`, each updated by `dt` once per occurrence of its
      reference in `c`. */
  function Deplaces(objs: seq<Objet>, c: seq<Ref>, dt: real): (r: seq<Objet>)
    ensures |r| == |objs|
    ensures forall k :: 0 <= k < |objs| ==> r[k] == DeplacerN(objs[k], multiset(c)[k], dt)
  {
    seq(|objs|, k requires 0 <= k < |objs| => DeplacerN(objs[k], multiset(c)[k], dt))
  }

  /** The pass of the built-in behaviour over a list that fits the visit
      budget: rooms and lists stay as they are, and every object has moved
      once per occurrence in the part of the list still to visit. */
  lemma {:induction false} ParcoursDeBase(b: Monde, l0: nat, i: nat, dt: real, limite: nat)
    requires l0 < |b.listes| && i <= |b.listes[l0]| <= limite
    ensures var p := Parcours(b, l0, i, ActualiserDeBase(dt), limite);
      && p.Ok?
      && p.value.salles == b.salles && p.value.listes == b.listes && p.value.actuelle == b.actuelle
      && p.value.objets == Deplaces(b.objets, b.listes[l0][i..], dt)
    decreases |b.listes[l0]| - i
  {
    if i == |b.listes[l0]| {
      assert b.listes[l0][i..] == [];
    } else {
      var o := b.listes[l0][i];
      var b' := Modifier(b, o, Deplacer(b.objets[o], dt));
      ParcoursDeBase(b', l0, i + 1, dt, limite);
      VisiteDeBase(b, l0, i, dt, limite);
      UnPasDePlus(b.objets, b.listes[l0], i, dt);
    }
  }

  /** The built-in behaviour's visit of position `i` moves the object there
      and hands the pass on to position `i + 1`. */
  lemma VisiteDeBase(b: Monde, l0: nat, i: nat, dt: real, limite: nat)
    requires l0 < |b.listes| && i < |b.listes[l0]| <= limite
    ensures var o := b.listes[l0][i];
      Parcours(b, l0, i, ActualiserDeBase(dt), limite)
        == Parcours(Modifier(b, o, Deplacer(b.objets[o], dt)), l0, i + 1, ActualiserDeBase(dt), limite)
  {
    var o := b.listes[l0][i];
    assert ActualiserDeBase(dt)(b, o) == Ok(Modifier(b, o, Deplacer(b.objets[o], dt)));
  }

  /** Moving the object at position `i` of `c` once and then every object
      once per occurrence in the rest of `c` is moving every object once per
      occurrence from position `i` on. */
  lemma UnPasDePlus(avant: seq<Objet>, c: seq<Ref>, i: nat, dt: real)
    requires i < |c| && c[i] < |avant|
    ensures Deplaces(avant[c[i] := Deplacer(avant[c[i]], dt)], c[i + 1..], dt) == Deplaces(avant, c[i..], dt)
  {
    var o: Ref := c[i];
    var reste: seq<Ref> := c[i + 1..];
    assert c[i..] == [o] + reste;
    var g := Deplaces(avant[o := Deplacer(avant[o], dt)], reste, dt);
    var d := Deplaces(avant, [o] + reste, dt);
    assert multiset([o] + reste) == multiset{o} + multiset(reste);
    forall k | 0 <= k < |avant|
      ensures g[k] == d[k]
    {
      if k == o {
        assert d[k] == DeplacerN(avant[k], multiset(reste)[k] + 1, dt);
      }
    }
  }

  /** One step by `dt` followed by `n` more is `n + 1` steps. */
  lemma {:induction false} DeplacerUneFoisDePlus(o: Objet, n: nat, dt: real)
    ensures Deplacer(Deplacer(o, dt), (n as real) * dt) == Deplacer(o, ((n + 1) as real) * dt)
  {
    var r := n as real;
    var t := ((n + 1) as real) * dt;
    assert t == dt + r * dt by {
      assert (n + 1) as real == r + 1.0;
    }
    DeplacerComposition(o, dt, r * dt);
    assert Deplacer(o, dt + r * dt) == Deplacer(o, t);
  }

  /** Moving by a zero time step moves nothing. */
  lemma DeplacerParZero(o: Objet, dt: real)
    ensures Deplacer(o, 0.0 * dt) == o
  {
  }

  /** One frame of the built-in behaviour over the current room: every
      object of the scene ends up moved by `dt` once per occurrence in the
      room (not at all when it is elsewhere), and the room then holds its
      live objects, in order. */
  lemma {:induction false} ActualiserDeBaseDeplaceLaSalle(s: Monde, dt: real, limite: nat)
    requires s.actuelle in s.salles && |Contenu(s, s.actuelle)| <= limite
    ensures var p := Parcours(s, s.salles[s.actuelle], 0, ActualiserDeBase(dt), limite);
      && p.Ok? && p.value.salles == s.salles && p.value.actuelle == s.actuelle
      && Compacter(p.value).Ok?
      && Compacter(p.value).value.objets == Deplaces(s.objets, Contenu(s, s.actuelle), dt)
      && Contenu(Compacter(p.value).value, s.actuelle) == Keep(Contenu(s, s.actuelle), EstVivant(s))
  {
    var c := Contenu(s, s.actuelle);
    ParcoursDeBase(s, s.salles[s.actuelle], 0, dt, limite);
    var p := Parcours(s, s.salles[s.actuelle], 0, ActualiserDeBase(dt), limite);
    assert c[0..] == c;
    KeepAgreeing(c, EstVivant(p.value), EstVivant(s));
  }
}

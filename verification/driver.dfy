/** The demo's driver object and the mesh objects it registers: each
  * generator builds its lists, hands the vertices and triangles to
  * Add_Tri_Mesh_Object, which allocates a mesh object, appends it to the
  * driver's mesh_object_array and copies the lists in, and then stores the UVs
  * in the new object. */
module Driver {
  import opened MeshCore
  import Ground
  import Building
  import Sphere
  import Cylinder

  /** A triangle-mesh object as far as the generators touch it: its vertex,
    * triangle and UV lists. */
  class TriangleMesh {
    var vertices: seq<Vec3>
    var elements: seq<Tri>
    var uvs: seq<Vec2>

    /** A fresh object holds an empty mesh. */
    constructor ()
      ensures vertices == [] && elements == [] && uvs == []
    {
      vertices, elements, uvs := [], [], [];
    }

    /** The mesh the object currently holds. */
    function Value(): Mesh
      reads this
    {
      Mesh(vertices, elements, uvs)
    }
  }

  class MyDriver {
    /** The registered mesh objects, oldest first. */
    var meshObjects: seq<TriangleMesh>

    constructor ()
      ensures meshObjects == []
      ensures Valid()
    {
      meshObjects := [];
    }

    /** The meshes the registered objects hold, in registration order. */
    function Registered(): (r: seq<Mesh>)
      reads this, meshObjects
      ensures |r| == |meshObjects|
      ensures forall k :: 0 <= k < |meshObjects| ==> r[k] == meshObjects[k].Value()
    {
      seq(|meshObjects|, k reads this, meshObjects requires 0 <= k < |meshObjects| => meshObjects[k].Value())
    }

    /** Every registered mesh is well formed. */
    predicate Valid()
      reads this, meshObjects
    {
      forall k :: 0 <= k < |Registered()| ==> WellFormed(Registered()[k])
    }

    /** Add_Tri_Mesh_Object: appends one fresh object holding the given
      * vertices and triangles, and no UVs, and leaves every earlier entry as
      * it was. */
    method AddTriMeshObject(vertices: seq<Vec3>, elements: seq<Tri>) returns (obj: TriangleMesh)
      modifies this
      ensures fresh(obj)
      ensures meshObjects == old(meshObjects) + [obj]
      ensures obj.vertices == vertices && obj.elements == elements && obj.uvs == []
      ensures Registered() == old(Registered()) + [Mesh(vertices, elements, [])]
    {
      obj := new TriangleMesh();
      meshObjects := meshObjects + [obj];
      obj.vertices := vertices;
      obj.elements := elements;
    }

    /** Create_Building: registers the box of the given size. Its placement
      * at `position` goes to the object's model matrix, which is not part of
      * this model. */
    method CreateBuilding(width: real, depth: real, height: real, position: Vec3) returns (building: TriangleMesh)
      modifies this
      ensures fresh(building) && meshObjects == old(meshObjects) + [building]
      ensures Registered() == old(Registered()) + [Building.BoxMesh(width, depth, height)]
      ensures old(Valid()) ==> Valid()
    {
      var vertices := Building.BoxVertices(width, depth, height);
      var elements := Building.BoxElements();
      var uvs := Building.BuildingUvs();
      building := AddTriMeshObject(vertices, elements);
      building.uvs := uvs;
      assert Registered() == old(Registered()) + [Mesh(vertices, elements, uvs)];
      Building.BoxShape(width, depth, height);
    }

    /** Create_Ground_Plane: registers the slanted ground grid. */
    method CreateGroundPlane(width: real, length: real, A: real, B: real, C: real, nx: int, nz: int)
      returns (mesh: TriangleMesh)
      requires nx >= 1 && nz >= 1
      modifies this
      ensures fresh(mesh) && meshObjects == old(meshObjects) + [mesh]
      ensures Registered() == old(Registered()) + [Ground.GroundMesh(width, length, A, B, C, nx, nz)]
      ensures old(Valid()) ==> Valid()
    {
      var vertices, uvs := Ground.GroundGridVertices(width, length, A, B, C, nx, nz);
      var elements := Ground.GroundGridElements(nx, nz);
      mesh := AddTriMeshObject(vertices, elements);
      mesh.uvs := uvs;
      assert Registered() == old(Registered()) + [Mesh(vertices, elements, uvs)];
      Ground.GroundMeshShape(width, length, A, B, C, nx, nz);
    }

    /** Create_Sphere: registers the UV sphere. Its placement at `center` goes
      * to the object's model matrix, which is not part of this model. */
    method CreateSphere(radius: real, slices: int, stacks: int, center: Vec3, sin: real -> real, cos: real -> real)
      returns (sphere: TriangleMesh)
      requires slices >= 1 && stacks >= 1
      modifies this
      ensures fresh(sphere) && meshObjects == old(meshObjects) + [sphere]
      ensures Registered() == old(Registered()) + [Sphere.SphereMesh(radius, sin, cos, slices, stacks)]
      ensures old(Valid()) ==> Valid()
    {
      var vertices, uvs := Sphere.SphereGridVertices(radius, slices, stacks, sin, cos);
      var elements := Sphere.SphereGridElements(slices, stacks);
      sphere := AddTriMeshObject(vertices, elements);
      sphere.uvs := uvs;
      assert Registered() == old(Registered()) + [Mesh(vertices, elements, uvs)];
      Sphere.SphereMeshShape(radius, sin, cos, slices, stacks);
    }

    /** Create_Cylinder: registers the open cylinder. Its placement at
      * `baseCenter` goes to the object's model matrix, which is not part of
      * this model. */
    method CreateCylinder(radius: real, height: real, slices: int, baseCenter: Vec3, sin: real -> real, cos: real -> real)
      returns (cyl: TriangleMesh)
      requires slices >= 1
      modifies this
      ensures fresh(cyl) && meshObjects == old(meshObjects) + [cyl]
      ensures Registered() == old(Registered()) + [Cylinder.CylinderMesh(radius, height, sin, cos, slices)]
      ensures old(Valid()) ==> Valid()
    {
      var vertices, uvs := Cylinder.CylinderRimVertices(radius, height, slices, sin, cos);
      var elements := Cylinder.CylinderSideElements(slices);
      cyl := AddTriMeshObject(vertices, elements);
      cyl.uvs := uvs;
      assert Registered() == old(Registered()) + [Mesh(vertices, elements, uvs)];
      Cylinder.CylinderMeshShape(radius, height, sin, cos, slices);
    }
  }
}

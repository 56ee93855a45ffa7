# Poseidon engine core in Dafny

This project models the data layer and arithmetic of the Poseidon game
engine's renderer:

- **vertex buffer layouts**: attribute types, their byte sizes and component
  counts, and the way `BufferLayout::new` turns a list of attributes into
  per-attribute byte offsets and a stride;
- **the 4x4 matrix** `Mat4f`: an object holding 16 values in column-major
  order (`cell(x, y) = 4x + y`), with its identity, entry access and
  update, translation and scaling constructors, scalar, vector and matrix
  products, and the row-by-row order `Display` prints it in;
- **the 2D renderer**: a `Rect` positioned by a pivot, its bounds, and the
  single draw `draw_textured_rect` issues for it (`draw_rect` draws with the
  1x1 white default texture);
- **quad index lists**: the pattern `4q, 4q+1, 4q+2, 4q, 4q+2, 4q+3` that
  both the rectangle draw and the cube demo's 36-entry index constant follow.

Files: `vectors.dfy` (module `Vectors`), `array_buffer.dfy` (`ArrayBuffer`),
`mat4f.dfy` (`Matrix`), `renderer_2d.dfy` (`Renderer2D`), `indices.dfy`
(`Indices`).

Modelling choices:

- `BufferLayout::new` is a method with the source's single loop over the
  attributes. It is proved against `SizeSum` (total byte size of a prefix)
  and `Offsets` (prefix sums).
- `Mat4f` is a class whose `values` field is a 16-element array. `set`
  updates it in place. `translate`, `scale` and the matrix product start
  from the identity; the scalar product starts from a copy of its operand;
  the vector product is the function `MulVec`. The matrix product is
  specified entry by entry against `ProductEntry` (row `r` of `a` times
  column `c` of `b`).
- `draw_textured_rect` becomes a pure function returning a `DrawCall`
  value: the four vertex records, the layout, the indices, the byte sizes
  uploaded, the texture, the slot it is bound to and the count drawn. The
  device calls themselves are not modelled.
- `f32` values are mathematical reals. Offsets, strides and sizes are
  unbounded naturals.

## Model

| member | source | states |
|---|---|---|
| ArrayBuffer.AttributeType.Size | src/graphics/array_buffer.rs:11-28 | the byte size is 4 bytes per component: Float 4, Vec2f 8, Vec3f 12, Vec4f 16 |
| ArrayBuffer.AttributeType.ComponentCount | src/graphics/array_buffer.rs:21-28 | every attribute type has between 1 and 4 components |
| ArrayBuffer.AttributeType.OpenGlType | src/graphics/array_buffer.rs:31-38 | every attribute type maps to GL_FLOAT (0x1406) |
| ArrayBuffer.AttributeGettersReturnArguments | src/graphics/array_buffer.rs:55-67 | the getters return exactly the type and normalized flag the attribute was built with |
| ArrayBuffer.NewBufferLayout | src/graphics/array_buffer.rs:83-93 | the loop keeps the attributes; offsets[i] is the total size of the attributes before i; the stride is the total size of all of them |
| ArrayBuffer.SizeSum | src/graphics/array_buffer.rs:85-88 | the running offset after a run of attributes is a multiple of 4 bytes, and is 0 exactly for an empty run |
| ArrayBuffer.Offsets | src/graphics/array_buffer.rs:84-89 | one offset per attribute |
| ArrayBuffer.LayoutOf | src/graphics/array_buffer.rs:83-93 | the computed layout has as many offsets as attributes |
| ArrayBuffer.SizeSumGrowth | src/graphics/array_buffer.rs:85-89 | each attribute adds between 4 and 16 bytes to the running offset |
| ArrayBuffer.OffsetsArePrefixSums | src/graphics/array_buffer.rs:84-89 | the first offset is 0; each next offset is the previous one plus the size of the attribute in between |
| ArrayBuffer.AttributeFitsInStride | src/graphics/array_buffer.rs:86-92 | every attribute ends at or before the stride |
| ArrayBuffer.OffsetsStrictlyIncrease | src/graphics/array_buffer.rs:86-89 | attributes never overlap: later offsets are at least 4 bytes per attribute further on |
| ArrayBuffer.StrideBounds | src/graphics/array_buffer.rs:85-92 | the stride lies between 4 and 16 bytes per attribute; an empty list has stride 0 |
| Matrix.Cell | src/math/mat4f.rs:12-14 | for a row below 4, the flat index divided by 4 is the column and its remainder is the row |
| Matrix.CellIsInvertible | src/math/mat4f.rs:12-14 | inside the 4x4 grid, cell(x, y) is below 16, is one-to-one and has inverse (k / 4, k % 4) |
| Matrix.CellIsOnto | src/math/mat4f.rs:12-14 | every flat index below 16 is the cell of some column and row |
| Matrix.IdentityValues | src/math/mat4f.rs:18-25 | the identity's values hold 1 on the diagonal and 0 elsewhere |
| Matrix.Mat4f.Identity | src/math/mat4f.rs:18-25 | a fresh matrix holding the identity's values |
| Matrix.Mat4f.FromValues | src/math/mat4f.rs:185 | a matrix holding exactly the given 16 values |
| Matrix.Mat4f.Get | src/math/mat4f.rs:33-35 | for a row below 4, get reads the value at position `row` within the column's block of four |
| Matrix.StorageIsColumnMajor | src/math/mat4f.rs:12-14 | flat value k is get(k % 4, k / 4): values are stored column by column |
| Matrix.Mat4f.Set | src/math/mat4f.rs:44-46 | set writes the value at cell(column, row) so that get returns it, and leaves every other entry unchanged |
| Matrix.Mat4f.Printed | src/math/mat4f.rs:212-235 | Display prints the matrix row by row: printed value k is get(k / 4, k % 4) |
| Matrix.Mat4f.Translate | src/math/mat4f.rs:53-59 | the identity with the translation in rows 0-2 of column 3 |
| Matrix.MulVec | src/math/mat4f.rs:188-195 | the matrix times the j-th unit vector is column j (stored values 4j to 4j+3); the zero vector maps to zero |
| Matrix.TranslationMovesPoints | src/math/mat4f.rs:188-195 | a translation matrix times a point (w = 1) adds the translation; times a direction (w = 0) it changes nothing |
| Matrix.TranslationsCompose | src/math/mat4f.rs:197-210 | the product of two translation matrices is the translation by their sum |
| Matrix.Mat4f.Scale | src/math/mat4f.rs:94-100 | as written: the identity with scale.x in all three diagonal cells (0,0), (1,1), (2,2) |
| Matrix.ScaleIgnoresYAndZ | src/math/mat4f.rs:94-100 | for scale (1, 2, 3) the matrix built as written holds 1 at (1,1) and (2,2); the corrected one holds 2 and 3 |
| Matrix.Mat4f.ScaleXYZ | src/math/mat4f.rs:94-100 | corrected: scale.x, scale.y, scale.z on the diagonal, identity elsewhere |
| Matrix.ScalingScalesCoordinates | src/math/mat4f.rs:188-195 | the corrected scaling matrix times a vector multiplies x, y, z by their own factors and keeps w |
| Matrix.ScalingsCompose | src/math/mat4f.rs:197-210 | the product of two scaling matrices is the scaling by the component-wise products |
| Matrix.Mat4f.MulScalar | src/math/mat4f.rs:182-186 | a fresh matrix whose every entry is the operand's entry times the scalar, for both operand orders |
| Matrix.Mat4f.Mul | src/math/mat4f.rs:197-210 | a fresh matrix whose entry (r, c) is row r of a times column c of b |
| Matrix.PartialProductStep | src/math/mat4f.rs:200-208 | one inner-loop step writes entry (r, c) and nothing else, so the loops fill the product row by row over the identity |
| Matrix.PartialProductRowDone | src/math/mat4f.rs:200-208 | a finished row is where the next row starts |
| Matrix.IdentityIsNeutral | src/math/mat4f.rs:197-210 | the identity is neutral on both sides of the product |
| Matrix.IdentityFixesVectors | src/math/mat4f.rs:188-195 | the identity times a vector is that vector |
| Renderer2D.Rect.Left | src/graphics/renderer_2d.rs:32-34 | pivot x 0 puts the left edge at the position; pivot x 1 puts it one width to the left |
| Renderer2D.Rect.Right | src/graphics/renderer_2d.rs:37-39 | the right edge is one width right of the left edge; pivot x 1 puts it at the position |
| Renderer2D.Rect.Bottom | src/graphics/renderer_2d.rs:42-44 | pivot y 0 puts the bottom edge at the position; pivot y 1 puts it one height below |
| Renderer2D.Rect.Top | src/graphics/renderer_2d.rs:47-49 | the top edge is one height above the bottom edge; pivot y 1 puts it at the position |
| Renderer2D.Rect.Bounds | src/graphics/renderer_2d.rs:52-54 | the bounds come in the order (left, right, top, bottom), spanning the width and the height |
| Renderer2D.PivotExamples | src/graphics/renderer_2d.rs:32-54 | a 200 x 100 rectangle at the origin spans (-100, 100, 50, -50) with the centre pivot and (-200, 0, 0, -100) with pivot (1, 1) |
| Renderer2D.Vertex | src/graphics/renderer_2d.rs:137-138 | a vertex record has nine floats |
| Renderer2D.RectVertices | src/graphics/renderer_2d.rs:136-144 | four nine-float records at the rectangle's depth, in the tint, in the corner order bottom-left, bottom-right, top-right, top-left; each corner's UV is that corner of the texture, so position = (left, bottom) + UV * size |
| Renderer2D.Renderer2D.DrawTexturedRect | src/graphics/renderer_2d.rs:132-164 | a draw submits four vertices and six indices |
| Renderer2D.DrawUploadsRectVertices | src/graphics/renderer_2d.rs:139-152 | the uploaded vertices are the rectangle's corners, uploaded whole (4 strides of bytes); the given texture is bound to slot 0 |
| Renderer2D.DrawLayoutMatchesVertexRecord | src/graphics/renderer_2d.rs:137-150 | the layout is BufferLayout's for (Vec3f, Vec2f, Vec4f): stride 36 = 9 floats, offsets 0, 12, 20 where position, UV and colour start |
| Renderer2D.RectVertexRecordMatchesLayout | src/graphics/renderer_2d.rs:146-150 | the three attributes total 36 bytes = nine f32 values, with offsets 0, 12, 20 |
| Renderer2D.DrawIndicesCoverQuad | src/graphics/renderer_2d.rs:154-163 | the indices are one quad's pattern, uploaded whole (24 bytes) and all drawn; they refer to every uploaded vertex and to no other |
| Renderer2D.QuadTrianglesRunCounterClockwise | src/graphics/renderer_2d.rs:139-154 | for a positive size both triangles run counter-clockwise, each with half the rectangle's area |
| Renderer2D.Renderer2D.DrawRect | src/graphics/renderer_2d.rs:121-123 | draws with the renderer's default texture at slot 0; every vertex carries the colour |
| Renderer2D.NewRenderer2D | src/graphics/renderer_2d.rs:109-112 | the default texture is the 1x1 white one, whose texel is (1, 1, 1, 1) |
| Renderer2D.DefaultTexture | src/graphics/renderer_2d.rs:110 | one pixel, four bytes, all 255 |
| Renderer2D.DrawSamplesBoundTexture | src/graphics/renderer_2d.rs:107-162 | for every renderer, the slot a draw binds its texture to is the unit `new` sets the u_texture sampler to (0) |
| Renderer2D.DrawRectShadesSolidColor | src/graphics/renderer_2d.rs:94-123 | with the white default texel, the fragment shader's texel times colour gives exactly the colour |
| Indices.QuadIndices | src/main.rs:64-70 | quad q's six indices all lie among its own four vertices 4q to 4q+3 |
| Indices.IndexPattern | src/main.rs:64-70 | n quads take 6n indices, all below 4n |
| Indices.IndexPatternAt | src/main.rs:64-70 | entry 6q + j of the pattern is entry j of quad q |
| Indices.IndexPatternCoversVertices | src/main.rs:64-70 | every one of the 4n vertices is referenced |
| Indices.IndexPatternReferencesExactly | src/main.rs:64-70 | a value occurs in the pattern exactly when it is below 4n |
| Indices.SixQuadIndicesFollowPattern | src/main.rs:64-70 | the 36-entry index constant is the pattern for six quads (src/system/application.rs:57-63 holds the same constant) |
| Indices.SixQuadIndicesReferenceEveryVertex | src/main.rs:48-70 | the cube's index list refers to all of its 24 vertices and to no other |
| Indices.RectIndicesFollowPattern | src/graphics/renderer_2d.rs:154 | the rectangle's six indices are the pattern for one quad |

## Left out

- GPU and window calls are not modelled: buffer, vertex-array, shader and texture objects, binding, uploading, the indexed draw, SDL. `DrawCall` records what would be submitted. Files: `renderer.rs`, `vertex_array.rs`, `index_buffer.rs`, `shader.rs`, `texture.rs`, `window.rs`, `layer.rs`, and `ArrayBuffer`'s methods.
- `Renderer2D::new`'s view-projection argument and its `set_mat4f` upload are left out. So are the vertex shader and the projection it applies: they are a GPU computation on values the model does not hold.
- `Mat4f::rotate_yaw_pitch_roll`, `transformation`, `ortho`, `ortho_off_center` and `persp_fov` are left out. They need sine, cosine, tangent and division of floats. `transformation` is the product of three matrices, each already covered by `Mul`.
- `Vec2f`, `Vec3f` and `Vec4f` are plain value records here; their operators are not modelled. As written, `Vec4f * f32` in `vec4f.rs` computes `w + rhs` rather than `w * rhs`, but no modelled operation uses it.
- f32 rounding, NaN and infinities are not modelled: all arithmetic is exact over reals.
- ArrayBuffer.NewBufferLayout: the u32 offsets and stride do not wrap here. `StrideBounds` shows a wrap needs at least 2^28 attributes.
- Matrix.Mat4f.Get and Matrix.Mat4f.Set require only that the flat index `4 * column + row` is below 16, because the array index is the only check the source makes. Arguments outside the 4x4 grid whose flat index is still in range (row 5, column 0) reach another entry, as in the source.
- Matrix.Mat4f.Mul and Matrix.Mat4f.MulScalar read their operands through a copy of the operand values. The operands are shared borrows that nothing writes to during the operation, so the copy holds the same numbers.
- Matrix.Mat4f.Mul fills a fresh array that starts as the identity, rather than the identity matrix object itself. All 16 cells are overwritten, so the result is the same.
- Matrix.Mat4f.Printed: keeps only the order `Display` prints the values in. The box-drawing frame, the `", "` separators and the text formatting of each f32 are not modelled.
- Matrix.Mat4f.FromValues: `Mat4f` is a `Clone, Copy` value in the source, but a reference class here. `FromValues` keeps the caller's array rather than copying it. Every modelled operation builds its result in a fresh array, so no result shares storage with an operand.
- Texture sampling: the model states the fragment shader's result only for a 1x1 texture, where every coordinate samples the one pixel. Filtering and wrapping of larger textures are not modelled.
- `Texture::with_data`, `bind_to_slot` and `Shader::set_int` are not part of this model. Their effects are represented by the texture's bytes and the slot numbers.
- The matrix-times-matrix product is specified entry by entry and shown to compose translations and scalings. A general proof that `(a * b) * v == a * (b * v)` for every vector is not given.

## Findings

| source | as written | input that shows it | evidently intended | confidence | as-written member | corrected member |
|---|---|---|---|---|---|---|
| src/math/mat4f.rs:96-98 | `scale` writes `scale.x` into all three diagonal cells (0,0), (1,1) and (2,2) | scale (1, 2, 3): get(1, 1) = 1 and get(2, 2) = 1 instead of 2 and 3 | cells (1,1) and (2,2) take `scale.y` and `scale.z` | not executed | Matrix.Mat4f.Scale, Matrix.ScaleIgnoresYAndZ | Matrix.Mat4f.ScaleXYZ, Matrix.ScalingScalesCoordinates |

The demo in `src/main.rs` only ever scales by (1, 1, 1), where both versions agree.
